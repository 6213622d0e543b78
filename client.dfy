/**
 * The JavaScript client src/hiscores.js: `parseStats` assigns the non-blank
 * payload lines by position to the skill, bounty-hunter, lms and clue slots;
 * `getPlayerStats` requests the payloads and resolves the game mode;
 * `getRSNFormat` reads the canonical name from the lookup page; and
 * `getHiscores` checks its arguments, requests a page and turns each table
 * row into a player entry.
 *
 * Requests are the parameter `fetch` (what axios resolves to for an
 * address, or its rejection). Pages are given already selected: `marked`
 * yields the first-child text of each marked cell of a lookup page, and
 * `rowsOf` the `td` cells of each table row of a hiscore page.
 *
 * Two lines of the client do not do what they evidently mean to: the
 * bounty-hunter table spells the rogue slot "rouge", and the hardcore
 * `dead` test counts every child node of the name cell. Each operation
 * takes a `Reading`: `AsWritten` follows the code, `Intended` the evident
 * meaning, so both versions run end to end.
 */
module Client {
  import opened Wrappers
  import opened JsBuiltins
  import opened Records
  import opened ModeCascade
  import opened ClientCommon
  import Constants

  // ------------------------------------------------------------------
  // Tables
  // ------------------------------------------------------------------

  /** `hiscores.clues`. */
  const JS_CLUES: seq<string> := ["all", "beginner", "easy", "medium", "hard", "elite", "master"]

  /** `hiscores.bh` as written: the rogue slot is spelt "rouge". */
  const BH_AS_WRITTEN: seq<string> := ["rouge", "hunter"]

  /** The bounty-hunter slots with the rogue slot spelt "rogue", as in the older client. */
  const BH_NAMES: seq<string> := ["rogue", "hunter"]

  /** `hiscores.other`: the activity tables, by table number. */
  const OTHER: seq<string> := [
    "hunterbh", "roguebh", "lms", "allclues", "beginnerclues",
    "easyclues", "mediumclues", "hardclues", "eliteclues", "masterclues"
  ]

  lemma ClientTables()
    ensures Distinct(JS_CLUES) && Distinct(BH_NAMES) && Distinct(OTHER)
    ensures |JS_CLUES| == 7 && |BH_NAMES| == 2 && |OTHER| == 10
  {
  }

  lemma OtherApartFromSkills()
    ensures forall c :: c in OTHER ==> c !in JS_SKILLS
  {
    assert forall c :: c in OTHER ==> c !in SKILLS_A && c !in SKILLS_B && c !in SKILLS_C;
  }

  // ------------------------------------------------------------------
  // parseStats
  // ------------------------------------------------------------------

  /** A line's object; its fields are kept as text. */
  datatype StatObject =
    | SkillObject(rank: string, level: string, xp: string)
    | ScoreObject(rank: string, score: Option<string>)

  /** Three fields are rank, level and xp; any other count gives rank and score (undefined past the end). */
  function ToStatObject(fields: seq<string>): StatObject
    requires |fields| >= 1
  {
    if |fields| == 3 then SkillObject(fields[0], fields[1], fields[2])
    else ScoreObject(fields[0], if |fields| >= 2 then Some(fields[1]) else None)
  }

  /** One object per line, each from the line's comma-separated fields. */
  function ObjectsOf(lines: seq<string>): (objs: seq<StatObject>)
    ensures |objs| == |lines|
    ensures forall i :: 0 <= i < |lines| ==> objs[i] == ToStatObject(Split(lines[i], ','))
  {
    if lines == [] then [] else [ToStatObject(Split(lines[0], ','))] + ObjectsOf(lines[1..])
  }

  /** One object per non-blank line of the payload, in order. */
  function StatObjects(csv: string): seq<StatObject>
  {
    ObjectsOf(NonBlank(Split(csv, '\n')))
  }

  /** What `parseStats` returns; `lms` is None while it is still the initial empty object. */
  datatype ParsedStats = ParsedStats(
    stats: map<Key<string>, StatObject>,
    clues: map<Key<string>, StatObject>,
    bh: map<Key<string>, StatObject>,
    lms: Option<StatObject>)

  /** The tables `parseStats` lays the lines out by: skills, then bounty hunter, then lms, then clues. */
  datatype Layout = Layout(skills: seq<string>, bh: seq<string>, clues: seq<string>)

  /** The tables as written. */
  const LAYOUT_AS_WRITTEN: Layout := Layout(JS_SKILLS, BH_AS_WRITTEN, JS_CLUES)

  /** The tables with the bounty-hunter rogue slot spelt "rogue", as evidently intended. */
  const LAYOUT: Layout := Layout(JS_SKILLS, BH_NAMES, JS_CLUES)

  /** Whether an operation follows the client as written or as evidently intended. */
  datatype Reading = AsWritten | Intended

  /** The tables `parseStats` uses under a reading. */
  function LayoutOf(v: Reading): Layout
  {
    if v == AsWritten then LAYOUT_AS_WRITTEN else LAYOUT
  }

  /** `s.slice(k)`. */
  function Rest<T>(s: seq<T>, k: nat): (r: seq<T>)
    ensures |r| == if k >= |s| then 0 else |s| - k
    ensures forall i :: 0 <= i < |r| ==> r[i] == s[k + i]
  {
    if k >= |s| then [] else s[k..]
  }

  /** One step of the `forEach`: the object at `index` written into the slot the index selects. */
  function Place(p: ParsedStats, index: nat, obj: StatObject, t: Layout): ParsedStats
  {
    var ns, nb := |t.skills|, |t.bh|;
    if index < ns then p.(stats := p.stats[Named(t.skills[index]) := obj])
    else if index < ns + nb then p.(bh := p.bh[Named(t.bh[index - ns]) := obj])
    else if index == ns + nb then p.(lms := Some(obj))
    else p.(clues := p.clues[KeyAt(t.clues, index - ns - nb - 1) := obj])
  }

  /** The object after the `forEach` has placed every object, in order, starting from the empty slots. */
  function Placed(objs: seq<StatObject>, t: Layout): ParsedStats
    decreases |objs|
  {
    if objs == [] then ParsedStats(map[], map[], map[], None)
    else Place(Placed(objs[..|objs| - 1], t), |objs| - 1, objs[|objs| - 1], t)
  }

  /**
   * The object built from the line objects, by position ranges: the first
   * |skills| objects are skills, the next |bh| bounty hunter, the next one
   * lms, and every later one a clue (past the clue table, the property
   * "undefined").
   */
  function StatsOf(objs: seq<StatObject>, t: Layout): ParsedStats
  {
    var ns := |t.skills|;
    var nb := |t.bh|;
    ParsedStats(
      Assign(map[], t.skills, Run(objs, 0, ns)),
      Assign(map[], t.clues, Rest(objs, ns + nb + 1)),
      Assign(map[], t.bh, Run(objs, ns, nb)),
      if ns + nb < |objs| then Some(objs[ns + nb]) else None)
  }

  /** Appending past the end of a run leaves the run unchanged. */
  lemma RunSnocAfter<T>(p: seq<T>, o: T, start: nat, len: nat)
    requires start + len <= |p| || start > |p|
    ensures Run(p + [o], start, len) == Run(p, start, len)
  {
  }

  /** Appending inside a run extends the run. */
  lemma RunSnocInside<T>(p: seq<T>, o: T, start: nat, len: nat)
    requires start <= |p| < start + len
    ensures Run(p + [o], start, len) == Run(p, start, len) + [o]
  {
  }

  lemma RestSnoc<T>(p: seq<T>, o: T, k: nat)
    ensures k <= |p| ==> Rest(p + [o], k) == Rest(p, k) + [o]
    ensures k > |p| ==> Rest(p + [o], k) == Rest(p, k)
  {
  }

  lemma StepSkill(p: seq<StatObject>, o: StatObject, t: Layout)
    requires |p| < |t.skills|
    ensures StatsOf(p + [o], t) == Place(StatsOf(p, t), |p|, o, t)
  {
    var ns, nb := |t.skills|, |t.bh|;
    RunSnocInside(p, o, 0, ns);
    RunSnocAfter(p, o, ns, nb);
    RestSnoc(p, o, ns + nb + 1);
    AssignSnoc(map[], t.skills, Run(p, 0, ns), o);
  }

  lemma StepBh(p: seq<StatObject>, o: StatObject, t: Layout)
    requires |t.skills| <= |p| < |t.skills| + |t.bh|
    ensures StatsOf(p + [o], t) == Place(StatsOf(p, t), |p|, o, t)
  {
    var ns, nb := |t.skills|, |t.bh|;
    RunSnocAfter(p, o, 0, ns);
    RunSnocInside(p, o, ns, nb);
    RestSnoc(p, o, ns + nb + 1);
    AssignSnoc(map[], t.bh, Run(p, ns, nb), o);
  }

  lemma StepLms(p: seq<StatObject>, o: StatObject, t: Layout)
    requires |p| == |t.skills| + |t.bh|
    ensures StatsOf(p + [o], t) == Place(StatsOf(p, t), |p|, o, t)
  {
    var ns, nb := |t.skills|, |t.bh|;
    RunSnocAfter(p, o, 0, ns);
    RunSnocAfter(p, o, ns, nb);
    RestSnoc(p, o, ns + nb + 1);
  }

  lemma StepClue(p: seq<StatObject>, o: StatObject, t: Layout)
    requires |p| > |t.skills| + |t.bh|
    ensures StatsOf(p + [o], t) == Place(StatsOf(p, t), |p|, o, t)
  {
    var ns, nb := |t.skills|, |t.bh|;
    var k := ns + nb + 1;
    var before, after := StatsOf(p, t), StatsOf(p + [o], t);
    assert after.stats == before.stats by {
      RunSnocAfter(p, o, 0, ns);
    }
    assert after.bh == before.bh by {
      RunSnocAfter(p, o, ns, nb);
    }
    assert after.lms == before.lms by {
      assert (p + [o])[ns + nb] == p[ns + nb];
    }
    AssignRestSnoc(t.clues, p, o, k);
    assert Place(before, |p|, o, t) == before.(clues := before.clues[KeyAt(t.clues, |p| - k) := o]);
  }

  /** Appending to the objects after position k adds one property to the object assigned from them. */
  lemma AssignRestSnoc(names: seq<string>, p: seq<StatObject>, o: StatObject, k: nat)
    requires k <= |p|
    ensures Assign(map[], names, Rest(p + [o], k)) == Assign(map[], names, Rest(p, k))[KeyAt(names, |p| - k) := o]
  {
    RestSnoc(p, o, k);
    AssignSnoc(map[], names, Rest(p, k), o);
  }

  /** Without lines, every slot keeps its initial empty value. */
  lemma StatsOfNoLines(none: seq<StatObject>, t: Layout)
    requires none == []
    ensures StatsOf(none, t) == ParsedStats(map[], map[], map[], None)
  {
    assert Run(none, 0, |t.skills|) == [] && Run(none, |t.skills|, |t.bh|) == [];
    assert Rest(none, |t.skills| + |t.bh| + 1) == [];
  }

  /** Placing the objects one at a time yields the object described by position ranges. */
  lemma {:induction false} PlacedIsStatsOf(objs: seq<StatObject>, t: Layout)
    ensures Placed(objs, t) == StatsOf(objs, t)
    decreases |objs|
  {
    if objs == [] {
      StatsOfNoLines(objs, t);
    } else {
      var n := |objs| - 1;
      var front, last := objs[..n], objs[n];
      assert front + [last] == objs;
      PlacedIsStatsOf(front, t);
      var ns, nb := |t.skills|, |t.bh|;
      if n < ns {
        StepSkill(front, last, t);
      } else if n < ns + nb {
        StepBh(front, last, t);
      } else if n == ns + nb {
        StepLms(front, last, t);
      } else {
        StepClue(front, last, t);
      }
    }
  }

  /** `parseStats(csv)`: the line objects, then the `forEach` placing each one. */
  method ParseStats(csv: string, t: Layout) returns (parsed: ParsedStats)
    ensures parsed == Placed(StatObjects(csv), t)
  {
    parsed := PlaceObjects(StatObjects(csv), t);
  }

  /** The `forEach` of `parseStats`: each object written into the slot its index selects. */
  method PlaceObjects(objs: seq<StatObject>, t: Layout) returns (parsed: ParsedStats)
    ensures parsed == Placed(objs, t)
  {
    var ns := |t.skills|;
    var nb := |t.bh|;
    parsed := ParsedStats(map[], map[], map[], None);
    var index := 0;
    while index < |objs|
      invariant 0 <= index <= |objs|
      invariant parsed == Placed(objs[..index], t)
    {
      var obj := objs[index];
      assert objs[..index + 1][..index] == objs[..index];
      if index < ns {
        parsed := parsed.(stats := parsed.stats[Named(t.skills[index]) := obj]);
      } else if index < ns + nb {
        parsed := parsed.(bh := parsed.bh[Named(t.bh[index - ns]) := obj]);
      } else if index < ns + nb + 1 {
        parsed := parsed.(lms := Some(obj));
      } else {
        parsed := parsed.(clues := parsed.clues[KeyAt(t.clues, index - ns - nb - 1) := obj]);
      }
      index := index + 1;
    }
    assert objs[..|objs|] == objs;
  }

  // ------------------------------------------------------------------
  // Which line lands in which slot
  // ------------------------------------------------------------------

  lemma LayoutSizes()
    ensures |LAYOUT.skills| == 24 && |LAYOUT.bh| == 2 && |LAYOUT.clues| == 7
    ensures LAYOUT.skills[0] == "overall"
    ensures Distinct(LAYOUT.skills) && Distinct(LAYOUT.bh) && Distinct(LAYOUT.clues)
    ensures |LAYOUT_AS_WRITTEN.skills| == 24 && LAYOUT_AS_WRITTEN.bh == ["rouge", "hunter"]
  {
    JsSkillsTable();
    ClientTables();
  }

  /** Under either reading: 24 skills with overall first, two bounty-hunter slots, seven distinct clue tiers. */
  lemma LayoutOfSizes(v: Reading)
    ensures |LayoutOf(v).skills| == 24 && |LayoutOf(v).bh| == 2 && |LayoutOf(v).clues| == 7
    ensures LayoutOf(v).skills == JS_SKILLS && LayoutOf(v).clues == JS_CLUES
  {
    LayoutSizes();
  }

  /** Lines 0 to 23 are the skills, in table order; line 0 is overall. */
  lemma SkillLineSlot(objs: seq<StatObject>, i: nat, v: Reading)
    requires i < |JS_SKILLS| && i < |objs|
    ensures Named(JS_SKILLS[i]) in Placed(objs, LayoutOf(v)).stats
    ensures Placed(objs, LayoutOf(v)).stats[Named(JS_SKILLS[i])] == objs[i]
  {
    var t := LayoutOf(v);
    LayoutSizes();
    PlacedIsStatsOf(objs, t);
    AssignNamed(map[], t.skills, Run(objs, 0, |t.skills|), i);
  }

  /** Two values assigned under two distinct names give exactly those two properties. */
  lemma AssignPair<V>(names: seq<string>, a: V, b: V)
    requires |names| == 2 && names[0] != names[1]
    ensures Assign(map[], names, [a, b]) == map[Named(names[0]) := a, Named(names[1]) := b]
  {
    AssignSnoc(map[], names, [], a);
    assert [a, b] == [a] + [b];
    AssignSnoc(map[], names, [a], b);
  }

  /** As intended, lines 24 and 25 are the rogue and hunter bounty-hunter slots; nothing else is written there. */
  lemma BountyHunterLines(objs: seq<StatObject>)
    requires |objs| >= 26
    ensures Placed(objs, LayoutOf(Intended)).bh == map[Named("rogue") := objs[24], Named("hunter") := objs[25]]
  {
    LayoutSizes();
    PlacedIsStatsOf(objs, LAYOUT);
    assert Run(objs, 24, 2) == [objs[24], objs[25]];
    AssignPair(BH_NAMES, objs[24], objs[25]);
  }

  /** As written, the rogue slot is stored under "rouge" and "rogue" is never set. */
  lemma RougeKeyAsWritten(objs: seq<StatObject>)
    requires |objs| >= 26
    ensures Placed(objs, LayoutOf(AsWritten)).bh == map[Named("rouge") := objs[24], Named("hunter") := objs[25]]
    ensures Named("rogue") !in Placed(objs, LayoutOf(AsWritten)).bh
  {
    LayoutSizes();
    PlacedIsStatsOf(objs, LAYOUT_AS_WRITTEN);
    assert Run(objs, 24, 2) == [objs[24], objs[25]];
    AssignPair(BH_AS_WRITTEN, objs[24], objs[25]);
  }

  /** Line 26 is lms; a shorter payload leaves lms as the initial empty object. */
  lemma LmsLine(objs: seq<StatObject>, v: Reading)
    ensures Placed(objs, LayoutOf(v)).lms == if |objs| > 26 then Some(objs[26]) else None
  {
    LayoutOfSizes(v);
    LmsLineOf(objs, LayoutOf(v));
  }

  lemma LmsLineOf(objs: seq<StatObject>, t: Layout)
    requires |t.skills| == 24 && |t.bh| == 2
    ensures Placed(objs, t).lms == if |objs| > 26 then Some(objs[26]) else None
  {
    PlacedIsStatsOf(objs, t);
  }

  /** Lines 27 to 33 are the clue tiers, in table order. */
  lemma ClueLineSlot(objs: seq<StatObject>, j: nat, v: Reading)
    requires j < |JS_CLUES| && 27 + j < |objs|
    ensures Named(JS_CLUES[j]) in Placed(objs, LayoutOf(v)).clues
    ensures Placed(objs, LayoutOf(v)).clues[Named(JS_CLUES[j])] == objs[27 + j]
  {
    LayoutSizes();
    ClueLineSlotOf(objs, j, LayoutOf(v));
  }

  lemma ClueLineSlotOf(objs: seq<StatObject>, j: nat, t: Layout)
    requires |t.skills| == 24 && |t.bh| == 2 && Distinct(t.clues)
    requires j < |t.clues| && 27 + j < |objs|
    ensures Named(t.clues[j]) in Placed(objs, t).clues
    ensures Placed(objs, t).clues[Named(t.clues[j])] == objs[27 + j]
  {
    PlacedIsStatsOf(objs, t);
    AssignNamed(map[], t.clues, Rest(objs, 27), j);
  }

  /** Lines past the clue table are all written to the property "undefined"; the last one stays. */
  lemma ClueOverflow(objs: seq<StatObject>, v: Reading)
    requires |objs| > 34
    ensures Placed(objs, LayoutOf(v)).clues[Undefined] == objs[|objs| - 1]
  {
    var t := LayoutOf(v);
    LayoutSizes();
    PlacedIsStatsOf(objs, t);
    AssignOverflow(map[], t.clues, Rest(objs, 27));
  }

  /**
   * A 34-line payload sets every skill, both bounty-hunter slots, lms and
   * every clue tier; as written, the bounty-hunter keys are "rouge" and
   * "hunter".
   */
  lemma CompletePayloadKeys(objs: seq<StatObject>, v: Reading)
    requires |objs| == 34
    ensures Placed(objs, LayoutOf(v)).stats.Keys == set s | s in JS_SKILLS :: Named(s)
    ensures Placed(objs, LayoutOf(v)).clues.Keys == set c | c in JS_CLUES :: Named(c)
    ensures Placed(objs, LayoutOf(v)).bh.Keys
      == if v == AsWritten then {Named("rouge"), Named("hunter")} else {Named("rogue"), Named("hunter")}
    ensures Placed(objs, LayoutOf(v)).lms.Some?
  {
    SkillKeys(objs, v);
    ClueKeys(objs, v);
    if v == AsWritten {
      RougeKeyAsWritten(objs);
    } else {
      BountyHunterLines(objs);
    }
    LmsLine(objs, v);
  }

  /** A payload of at least 24 lines sets every skill, and only those. */
  lemma SkillKeys(objs: seq<StatObject>, v: Reading)
    requires |objs| >= 24
    ensures Placed(objs, LayoutOf(v)).stats.Keys == set s | s in JS_SKILLS :: Named(s)
  {
    var t := LayoutOf(v);
    LayoutSizes();
    PlacedIsStatsOf(objs, t);
    KeysOfFullTable(map[], t.skills, Run(objs, 0, 24));
  }

  /** A 34-line payload sets every clue tier, and only those. */
  lemma ClueKeys(objs: seq<StatObject>, v: Reading)
    requires |objs| == 34
    ensures Placed(objs, LayoutOf(v)).clues.Keys == set c | c in JS_CLUES :: Named(c)
  {
    LayoutSizes();
    ClueKeysOf(objs, LayoutOf(v));
  }

  lemma ClueKeysOf(objs: seq<StatObject>, t: Layout)
    requires |objs| == 34 && |t.skills| == 24 && |t.bh| == 2 && |t.clues| == 7
    ensures Placed(objs, t).clues.Keys == set c | c in t.clues :: Named(c)
  {
    PlacedIsStatsOf(objs, t);
    KeysOfFullTable(map[], t.clues, Rest(objs, 27));
  }

  lemma {:induction false} ObjectsOfAppend(x: seq<string>, y: seq<string>)
    ensures ObjectsOf(x + y) == ObjectsOf(x) + ObjectsOf(y)
    decreases |x|
  {
    if x == [] {
      assert x + y == y;
    } else {
      assert (x + y)[1..] == x[1..] + y;
      ObjectsOfAppend(x[1..], y);
    }
  }

  /** The objects of two payload parts joined by a newline are the objects of each part. */
  lemma StatObjectsOfJoinedLines(a: string, b: string)
    ensures StatObjects(a + "\n" + b) == StatObjects(a) + StatObjects(b)
  {
    NonBlankLinesJoined(a, b);
    ObjectsOfAppend(NonBlank(Split(a, '\n')), NonBlank(Split(b, '\n')));
  }

  /** Blank lines are dropped before positions are counted. */
  lemma BlankLineIgnored(a: string, b: string)
    ensures StatObjects(a + "\n\n" + b) == StatObjects(a + "\n" + b)
  {
    ExtraBlankLine(a, b);
  }

  /** A one-line payload gives the object of its fields. */
  lemma SingleLineObject(line: string)
    requires line != [] && '\n' !in line
    ensures StatObjects(line) == [ToStatObject(Split(line, ','))]
  {
    SplitNoSep(line, '\n');
    assert NonBlank([line]) == [line] by {
      assert [line] == [line] + [];
      NonBlankAppend([line], []);
    }
  }

  /** A three-field line keeps its fields as text: rank, level and xp, however large the xp. */
  lemma ThreeFieldLine(rank: string, level: string, xp: string)
    requires ',' !in rank && ',' !in level && ',' !in xp
    requires '\n' !in rank && '\n' !in level && '\n' !in xp
    ensures StatObjects(rank + [','] + level + [','] + xp) == [SkillObject(rank, level, xp)]
  {
    SplitNoSep(xp, ',');
    SplitNoSep(level, ',');
    SplitNoSep(rank, ',');
    SplitAround(level, ',', xp);
    assert rank + [','] + level + [','] + xp == rank + [','] + (level + [','] + xp);
    SplitAround(rank, ',', level + [','] + xp);
    SingleLineObject(rank + [','] + level + [','] + xp);
  }

  /** A two-field line is a rank and a score. */
  lemma TwoFieldLine(rank: string, score: string)
    requires ',' !in rank && ',' !in score
    requires '\n' !in rank && '\n' !in score
    ensures StatObjects(rank + [','] + score) == [ScoreObject(rank, Some(score))]
  {
    SplitNoSep(score, ',');
    SplitNoSep(rank, ',');
    SplitAround(rank, ',', score);
    SingleLineObject(rank + [','] + score);
  }

  // ------------------------------------------------------------------
  // getRSNFormat
  // ------------------------------------------------------------------

  /** What a request resolves to (status and body), or its rejection. */
  datatype Reply = Reply(status: int, data: string) | Rejected(reason: string)

  predicate Ok200(r: Reply)
  {
    r.Reply? && r.status == 200
  }

  /** The first-child text of the second marked cell, if the page has one. */
  function MarkedName(cells: seq<Option<string>>): Option<string>
  {
    if |cells| >= 2 then cells[1] else None
  }

  /** `getRSNFormat(rsn)`: the second marked cell's text with U+FFFD as a space; any failure is "Player not found". */
  function GetRSNFormat(rsn: string, fetch: string -> Reply, marked: string -> seq<Option<string>>)
    : (r: Result<string, Failure>)
    ensures r.Err? ==> r.error == Thrown(Constants.PLAYER_NOT_FOUND_ERROR)
    ensures r.Ok? <==> fetch(NameLookupUrl(rsn)).Reply? && MarkedName(marked(fetch(NameLookupUrl(rsn)).data)).Some?
    ensures r.Ok? ==> (var cell := MarkedName(marked(fetch(NameLookupUrl(rsn)).data)).value;
      && r.value == ReplaceFffd(cell)
      && '\U{FFFD}' !in r.value && |r.value| == |cell|)
  {
    match fetch(NameLookupUrl(rsn))
    case Rejected(_) => Err(Thrown(Constants.PLAYER_NOT_FOUND_ERROR))
    case Reply(_, data) =>
      match MarkedName(marked(data))
      case None => Err(Thrown(Constants.PLAYER_NOT_FOUND_ERROR))
      case Some(text) => Ok(ReplaceFffd(text))
  }

  // ------------------------------------------------------------------
  // getPlayerStats
  // ------------------------------------------------------------------

  /** `record.stats.overall.xp`: a text, or undefined. */
  datatype Xp = XpText(text: string) | XpUndefined

  /** The overall xp of a parsed record, or None when it has no overall property (reading it throws). */
  function OverallXp(p: ParsedStats): Option<Xp>
  {
    if Named("overall") !in p.stats then None
    else match p.stats[Named("overall")]
      case SkillObject(_, _, xp) => Some(XpText(xp))
      case ScoreObject(_, _) => Some(XpUndefined)
  }

  /** Any non-empty payload has an overall entry, so its overall xp can be read. */
  lemma OverallXpReadable(objs: seq<StatObject>, v: Reading)
    requires |objs| >= 1
    ensures OverallXp(Placed(objs, LayoutOf(v))).Some?
  {
    JsSkillsTable();
    SkillLineSlot(objs, 0, v);
  }

  /** The record `parseStats` makes of a payload. */
  function Record(v: Reading, r: Reply): ParsedStats
    requires r.Reply?
  {
    Placed(StatObjects(r.data), LayoutOf(v))
  }

  /** The records attached for a selected mode, keyed by mode name. */
  function AttachedRecords(v: Reading, selected: Mode, main: Reply, iron: Reply, hc: Reply, ult: Reply)
    : map<string, ParsedStats>
    requires main.Reply?
    requires selected != Main ==> iron.Reply?
    requires selected == Hardcore ==> hc.Reply?
    requires selected == Ultimate ==> ult.Reply?
  {
    match selected
    case Main => map["main" := Record(v, main)]
    case Iron => map["main" := Record(v, main), "iron" := Record(v, iron)]
    case Hardcore => map["main" := Record(v, main), "iron" := Record(v, iron), "hc" := Record(v, hc)]
    case Ultimate => map["main" := Record(v, main), "iron" := Record(v, iron), "ult" := Record(v, ult)]
  }

  /** The overall xp of an attached record, or None when it cannot be read. */
  function XpOf(records: map<string, ParsedStats>, m: Mode): Option<Xp>
  {
    if ModeName(m) in records then OverallXp(records[ModeName(m)]) else None
  }

  /** Every xp the cascade compares can be read. */
  predicate XpReadable(records: map<string, ParsedStats>, selected: Mode)
  {
    selected != Main ==>
      XpOf(records, Main).Some? && XpOf(records, Iron).Some?
      && (selected == Hardcore ==> XpOf(records, Hardcore).Some?)
  }

  /** Readability asks exactly for the xp of the records the cascade compares. */
  lemma XpReadableCompared(records: map<string, ParsedStats>, selected: Mode)
    ensures XpReadable(records, selected) <==> forall m :: m in Compared(selected) ==> XpOf(records, m).Some?
  {
  }

  /** Full mode: the main payload must be found; then the variants select the mode and the cascade settles it. */
  function FullPlayerStats(v: Reading, rsn: string, fetch: string -> Reply, marked: string -> seq<Option<string>>)
    : Result<Player<ParsedStats>, Failure>
  {
    var main := fetch(StatsUrl("main", rsn));
    if main.Rejected? then Err(RequestFailed(main.reason))
    else if main.status != 200 then Err(Thrown(Constants.PLAYER_NOT_FOUND_ERROR))
    else
      var iron := fetch(StatsUrl("iron", rsn));
      var hc := fetch(StatsUrl("hc", rsn));
      var ult := fetch(StatsUrl("ult", rsn));
      var name := GetRSNFormat(rsn, fetch, marked);
      if name.Err? then Err(name.error)
      else
        Settled(v, name.value, SelectMode(Ok200(iron), Ok200(hc), Ok200(ult)), main, iron, hc, ult)
  }

  /** Full mode once the mode is selected: the attached records, then the cascade over their overall xp. */
  function Settled(v: Reading, name: string, selected: Mode, main: Reply, iron: Reply, hc: Reply, ult: Reply)
    : Result<Player<ParsedStats>, Failure>
    requires main.Reply?
    requires selected != Main ==> iron.Reply?
    requires selected == Hardcore ==> hc.Reply?
    requires selected == Ultimate ==> ult.Reply?
  {
    SettleRecords(name, selected, AttachedRecords(v, selected, main, iron, hc, ult))
  }

  /** The cascade over attached records: unreadable xp throws, otherwise the decision sets the mode and flags. */
  function SettleRecords(name: string, selected: Mode, records: map<string, ParsedStats>)
    : Result<Player<ParsedStats>, Failure>
  {
    if !XpReadable(records, selected) then Err(TypeError)
    else
      var d := Decide(selected, XpOf(records, Main), XpOf(records, Iron), XpOf(records, Hardcore));
      Ok(Player(name, ModeName(d.mode), d.dead, d.deironed, records))
  }

  /** A single mode: its payload must be found, and it is the only record. */
  function SinglePlayerStats(v: Reading, rsn: string, mode: string, fetch: string -> Reply)
    : Result<Player<ParsedStats>, Failure>
    requires mode in MODE_URLS
  {
    var response := fetch(StatsUrl(mode, rsn));
    if response.Rejected? then Err(RequestFailed(response.reason))
    else if response.status != 200 then Err(Thrown(Constants.PLAYER_NOT_FOUND_ERROR))
    else Ok(Player(rsn, mode, false, false, map[mode := Record(v, response)]))
  }

  function PlayerStats(v: Reading, rsn: string, mode: string, fetch: string -> Reply, marked: string -> seq<Option<string>>)
    : Result<Player<ParsedStats>, Failure>
    requires mode in VALID_MODES
  {
    if mode == "full" then FullPlayerStats(v, rsn, fetch, marked) else SinglePlayerStats(v, rsn, mode, fetch)
  }

  /** `getPlayerStats(rsn, mode)`: the player object, updated step by step as the source does. */
  method GetPlayerStats(v: Reading, rsn: string, mode: string, fetch: string -> Reply, marked: string -> seq<Option<string>>)
      returns (r: Result<Player<ParsedStats>, Failure>)
    requires mode in VALID_MODES
    ensures r == PlayerStats(v, rsn, mode, fetch, marked)
  {
    var player: Player<ParsedStats> := Player(rsn, mode, false, false, map[]);
    if mode == "full" {
      r := GetFullPlayerStats(v, player, fetch, marked);
    } else {
      var response := fetch(StatsUrl(mode, rsn));
      if response.Rejected? {
        return Err(RequestFailed(response.reason));
      }
      if response.status != 200 {
        return Err(Thrown(Constants.PLAYER_NOT_FOUND_ERROR));
      }
      var stats := ParseStats(response.data, LayoutOf(v));
      player := player.(records := player.records[mode := stats]);
      return Ok(player);
    }
  }

  /** The full-mode branch: the main lookup, the variant and name lookups, then the mode switch. */
  method GetFullPlayerStats(v: Reading, player: Player<ParsedStats>, fetch: string -> Reply, marked: string -> seq<Option<string>>)
      returns (r: Result<Player<ParsedStats>, Failure>)
    requires !player.dead && !player.deironed && player.records == map[]
    ensures r == FullPlayerStats(v, player.rsn, fetch, marked)
  {
    var rsn := player.rsn;
    var main := fetch(StatsUrl("main", rsn));
    if main.Rejected? {
      return Err(RequestFailed(main.reason));
    }
    if main.status != 200 {
      return Err(Thrown(Constants.PLAYER_NOT_FOUND_ERROR));
    }
    var iron := fetch(StatsUrl("iron", rsn));
    var hc := fetch(StatsUrl("hc", rsn));
    var ult := fetch(StatsUrl("ult", rsn));
    var name := GetRSNFormat(rsn, fetch, marked);
    if name.Err? {
      return Err(name.error);
    }
    var selected := SelectMode(Ok200(iron), Ok200(hc), Ok200(ult));
    r := SettleMode(v, player.(rsn := name.value, mode := ModeName(selected)), selected, main, iron, hc, ult);
  }

  /** The `switch` on the selected mode: each case parses and attaches its records, then compares their overall xp. */
  method SettleMode(v: Reading, player: Player<ParsedStats>, selected: Mode, main: Reply, iron: Reply, hc: Reply, ult: Reply)
      returns (r: Result<Player<ParsedStats>, Failure>)
    requires main.Reply?
    requires selected != Main ==> iron.Reply?
    requires selected == Hardcore ==> hc.Reply?
    requires selected == Ultimate ==> ult.Reply?
    requires player.mode == ModeName(selected) && !player.dead && !player.deironed && player.records == map[]
    ensures r == Settled(v, player.rsn, selected, main, iron, hc, ult)
  {
    match selected
    case Main =>
      var mainStats := ParseStats(main.data, LayoutOf(v));
      r := Ok(player.(records := player.records["main" := mainStats]));
    case Iron =>
      r := SettleIron(v, player, main, iron, hc, ult);
    case Hardcore =>
      r := SettleHardcore(v, player, main, iron, hc, ult);
    case Ultimate =>
      r := SettleUltimate(v, player, main, iron, hc, ult);
  }

  /** The de-ironing check shared by the variant cases. */
  method CompareMainIron(player: Player<ParsedStats>, mainStats: ParsedStats, ironStats: ParsedStats)
      returns (r: Result<Player<ParsedStats>, Failure>)
    ensures OverallXp(mainStats).None? || OverallXp(ironStats).None? ==> r == Err(TypeError)
    ensures OverallXp(mainStats).Some? && OverallXp(ironStats).Some? ==>
      r == Ok(if OverallXp(mainStats) != OverallXp(ironStats) then player.(deironed := true, mode := "main") else player)
  {
    if OverallXp(mainStats).None? || OverallXp(ironStats).None? {
      return Err(TypeError);
    }
    var p := player;
    if OverallXp(mainStats) != OverallXp(ironStats) {
      p := p.(deironed := true, mode := "main");
    }
    return Ok(p);
  }

  /** The death check of the hardcore case. */
  method CompareIronHardcore(player: Player<ParsedStats>, ironStats: ParsedStats, hcStats: ParsedStats)
      returns (r: Result<Player<ParsedStats>, Failure>)
    ensures OverallXp(ironStats).None? || OverallXp(hcStats).None? ==> r == Err(TypeError)
    ensures OverallXp(ironStats).Some? && OverallXp(hcStats).Some? ==>
      r == Ok(if OverallXp(ironStats) != OverallXp(hcStats) then player.(dead := true, mode := "iron") else player)
  {
    if OverallXp(ironStats).None? || OverallXp(hcStats).None? {
      return Err(TypeError);
    }
    var p := player;
    if OverallXp(ironStats) != OverallXp(hcStats) {
      p := p.(dead := true, mode := "iron");
    }
    return Ok(p);
  }

  /** The ironman and ultimate cases after attaching: the de-ironing check. */
  method CompareVariant(player: Player<ParsedStats>, selected: Mode, mainStats: ParsedStats, ironStats: ParsedStats,
                        other: ParsedStats)
      returns (r: Result<Player<ParsedStats>, Failure>)
    requires selected == Iron || selected == Ultimate
    requires player.mode == ModeName(selected) && !player.dead && !player.deironed
    requires player.records == (if selected == Iron then map["main" := mainStats, "iron" := ironStats]
                                else map["main" := mainStats, "iron" := ironStats, "ult" := other])
    ensures r == SettleRecords(player.rsn, selected, player.records)
  {
    r := CompareMainIron(player, mainStats, ironStats);
  }

  /** The hardcore case after attaching: the death check, then the de-ironing check. */
  method CompareHardcore(player: Player<ParsedStats>, mainStats: ParsedStats, ironStats: ParsedStats,
                         hcStats: ParsedStats)
      returns (r: Result<Player<ParsedStats>, Failure>)
    requires player.mode == "hc" && !player.dead && !player.deironed
    requires player.records == map["main" := mainStats, "iron" := ironStats, "hc" := hcStats]
    ensures r == SettleRecords(player.rsn, Hardcore, player.records)
  {
    var checked := CompareIronHardcore(player, ironStats, hcStats);
    if checked.Err? {
      return checked;
    }
    r := CompareMainIron(checked.value, mainStats, ironStats);
  }

  method SettleIron(v: Reading, player: Player<ParsedStats>, main: Reply, iron: Reply, hc: Reply, ult: Reply)
      returns (r: Result<Player<ParsedStats>, Failure>)
    requires main.Reply? && iron.Reply?
    requires player.mode == "iron" && !player.dead && !player.deironed && player.records == map[]
    ensures r == Settled(v, player.rsn, Iron, main, iron, hc, ult)
  {
    var p := player;
    var mainStats := ParseStats(main.data, LayoutOf(v));
    p := p.(records := p.records["main" := mainStats]);
    var ironStats := ParseStats(iron.data, LayoutOf(v));
    p := p.(records := p.records["iron" := ironStats]);
    r := CompareVariant(p, Iron, mainStats, ironStats, ironStats);
  }

  method SettleHardcore(v: Reading, player: Player<ParsedStats>, main: Reply, iron: Reply, hc: Reply, ult: Reply)
      returns (r: Result<Player<ParsedStats>, Failure>)
    requires main.Reply? && iron.Reply? && hc.Reply?
    requires player.mode == "hc" && !player.dead && !player.deironed && player.records == map[]
    ensures r == Settled(v, player.rsn, Hardcore, main, iron, hc, ult)
  {
    var p := player;
    var mainStats := ParseStats(main.data, LayoutOf(v));
    p := p.(records := p.records["main" := mainStats]);
    var ironStats := ParseStats(iron.data, LayoutOf(v));
    p := p.(records := p.records["iron" := ironStats]);
    var hcStats := ParseStats(hc.data, LayoutOf(v));
    p := p.(records := p.records["hc" := hcStats]);
    r := CompareHardcore(p, mainStats, ironStats, hcStats);
  }

  method SettleUltimate(v: Reading, player: Player<ParsedStats>, main: Reply, iron: Reply, hc: Reply, ult: Reply)
      returns (r: Result<Player<ParsedStats>, Failure>)
    requires main.Reply? && iron.Reply? && ult.Reply?
    requires player.mode == "ult" && !player.dead && !player.deironed && player.records == map[]
    ensures r == Settled(v, player.rsn, Ultimate, main, iron, hc, ult)
  {
    var p := player;
    var mainStats := ParseStats(main.data, LayoutOf(v));
    p := p.(records := p.records["main" := mainStats]);
    var ironStats := ParseStats(iron.data, LayoutOf(v));
    p := p.(records := p.records["iron" := ironStats]);
    var ultStats := ParseStats(ult.data, LayoutOf(v));
    p := p.(records := p.records["ult" := ultStats]);
    r := CompareVariant(p, Ultimate, mainStats, ironStats, ultStats);
  }

  /** `getStats(rsn, mode)`: the argument checks, then `getPlayerStats` with the lower-cased mode. */
  method GetStats(v: Reading, rsn: string, mode: string, fetch: string -> Reply, marked: string -> seq<Option<string>>)
      returns (r: Result<Player<ParsedStats>, Failure>)
    ensures CheckStatsArgs(rsn, mode).Err? ==> r == Err(Thrown(CheckStatsArgs(rsn, mode).error))
    ensures CheckStatsArgs(rsn, mode).Ok? ==> r == PlayerStats(v, rsn, ToLower(mode), fetch, marked)
  {
    var checked := CheckStatsArgs(rsn, mode);
    if checked.Err? {
      return Err(Thrown(checked.error));
    }
    r := GetPlayerStats(v, rsn, checked.value, fetch, marked);
  }

  /** In full mode, a main payload that is not found rejects the call, whatever the other lookups give. */
  lemma FullModeNeedsMain(v: Reading, rsn: string, fetch: string -> Reply, marked: string -> seq<Option<string>>)
    requires !Ok200(fetch(StatsUrl("main", rsn)))
    ensures PlayerStats(v, rsn, "full", fetch, marked).Err?
  {
  }

  /** In full mode, a failed name lookup rejects the call with "Player not found". */
  lemma FullModeNeedsName(v: Reading, rsn: string, fetch: string -> Reply, marked: string -> seq<Option<string>>)
    requires Ok200(fetch(StatsUrl("main", rsn)))
    requires GetRSNFormat(rsn, fetch, marked).Err?
    ensures PlayerStats(v, rsn, "full", fetch, marked) == Err(Thrown(Constants.PLAYER_NOT_FOUND_ERROR))
  {
  }

  /** The records attached are keyed by exactly the names of the attached modes, main among them. */
  lemma AttachedKeys(v: Reading, selected: Mode, main: Reply, iron: Reply, hc: Reply, ult: Reply)
    requires main.Reply?
    requires selected != Main ==> iron.Reply?
    requires selected == Hardcore ==> hc.Reply?
    requires selected == Ultimate ==> ult.Reply?
    ensures forall m :: ModeName(m) in AttachedRecords(v, selected, main, iron, hc, ult) <==> m in Attached(selected)
  {
    AttachedNames(selected, AttachedRecords(v, selected, main, iron, hc, ult));
  }

  /** A settled player carries the given name, exactly the attached records, and the cascade's flags. */
  lemma SettledResult(v: Reading, name: string, selected: Mode, main: Reply, iron: Reply, hc: Reply, ult: Reply)
    requires main.Reply?
    requires selected != Main ==> iron.Reply?
    requires selected == Hardcore ==> hc.Reply?
    requires selected == Ultimate ==> ult.Reply?
    requires Settled(v, name, selected, main, iron, hc, ult).Ok?
    ensures var p := Settled(v, name, selected, main, iron, hc, ult).value;
      && p.rsn == name
      && (forall m :: ModeName(m) in p.records <==> m in Attached(selected))
      && (p.deironed ==> p.mode == "main")
      && (p.dead ==> selected == Hardcore && p.mode != "hc")
  {
    AttachedKeys(v, selected, main, iron, hc, ult);
  }

  /** A full-mode result carries the looked-up name, the cascade's decision and exactly the attached records. */
  lemma FullModeResult(v: Reading, rsn: string, fetch: string -> Reply, marked: string -> seq<Option<string>>)
    requires PlayerStats(v, rsn, "full", fetch, marked).Ok?
    ensures var p := PlayerStats(v, rsn, "full", fetch, marked).value;
      var selected := SelectMode(Ok200(fetch(StatsUrl("iron", rsn))), Ok200(fetch(StatsUrl("hc", rsn))),
                                 Ok200(fetch(StatsUrl("ult", rsn))));
      && GetRSNFormat(rsn, fetch, marked) == Ok(p.rsn)
      && (forall m :: ModeName(m) in p.records <==> m in Attached(selected))
      && (p.deironed ==> p.mode == "main")
      && (p.dead ==> selected == Hardcore && p.mode != "hc")
  {
    var iron, hc, ult := fetch(StatsUrl("iron", rsn)), fetch(StatsUrl("hc", rsn)), fetch(StatsUrl("ult", rsn));
    var name := GetRSNFormat(rsn, fetch, marked).value;
    SettledResult(v, name, SelectMode(Ok200(iron), Ok200(hc), Ok200(ult)), fetch(StatsUrl("main", rsn)), iron, hc, ult);
  }

  /** Outside full mode, the name, mode and flags stay as given and the parse of the mode's payload is the only record. */
  lemma SingleModeResult(v: Reading, rsn: string, mode: string, fetch: string -> Reply,
                         marked: string -> seq<Option<string>>)
    requires mode in VALID_MODES && mode != "full"
    requires PlayerStats(v, rsn, mode, fetch, marked).Ok?
    ensures var p := PlayerStats(v, rsn, mode, fetch, marked).value;
      && p.rsn == rsn && p.mode == mode && !p.dead && !p.deironed && p.records.Keys == {mode}
      && fetch(StatsUrl(mode, rsn)).Reply?
      && p.records[mode] == Placed(StatObjects(fetch(StatsUrl(mode, rsn)).data), LayoutOf(v))
  {
  }

  /**
   * As written, a single-mode record of a payload with 26 or more lines has
   * its rogue score under "rouge" and no "rogue" property.
   */
  lemma SingleModeRougeKey(rsn: string, mode: string, fetch: string -> Reply, marked: string -> seq<Option<string>>)
    requires mode in VALID_MODES && mode != "full"
    requires PlayerStats(AsWritten, rsn, mode, fetch, marked).Ok?
    requires fetch(StatsUrl(mode, rsn)).Reply?
    requires |StatObjects(fetch(StatsUrl(mode, rsn)).data)| >= 26
    ensures var bh := PlayerStats(AsWritten, rsn, mode, fetch, marked).value.records[mode].bh;
      Named("rouge") in bh && Named("rogue") !in bh
  {
    SingleModeResult(AsWritten, rsn, mode, fetch, marked);
    RougeKeyAsWritten(StatObjects(fetch(StatsUrl(mode, rsn)).data));
  }

  // ------------------------------------------------------------------
  // getHiscores and the row post-processing
  // ------------------------------------------------------------------

  /** A child node of a table cell: its own text (text nodes), whether it is an element, and its first child's text. */
  datatype CellNode = CellNode(data: Option<string>, isElement: bool, firstChildData: Option<string>)

  /** A `td` cell of a hiscore row, by its child nodes. */
  datatype Cell = Cell(children: seq<CellNode>)

  /** `attributes[k].children[0].data`, or None where reading it throws or gives undefined. */
  function CellText(cells: seq<Cell>, k: nat): Option<string>
  {
    if k < |cells| && |cells[k].children| >= 1 then cells[k].children[0].data else None
  }

  /** `attributes[1].children[1].children[0].data`, or None. */
  function NameText(cells: seq<Cell>): Option<string>
  {
    if |cells| >= 2 && |cells[1].children| >= 2 then cells[1].children[1].firstChildData else None
  }

  function ElementCount(nodes: seq<CellNode>): (n: nat)
    ensures n <= |nodes|
  {
    if nodes == [] then 0 else (if nodes[0].isElement then 1 else 0) + ElementCount(nodes[1..])
  }

  /** The `dead` test as written: the name cell has more than one child node. */
  predicate DeadAsWritten(cells: seq<Cell>)
  {
    |cells| >= 2 && |cells[1].children| > 1
  }

  /** The `dead` test as intended: besides the name link, the name cell holds another element. */
  predicate DeadFlag(cells: seq<Cell>)
  {
    |cells| >= 2 && ElementCount(cells[1].children) > 1
  }

  /** The `dead` test under a reading. */
  predicate Dead(v: Reading, cells: seq<Cell>)
  {
    if v == AsWritten then DeadAsWritten(cells) else DeadFlag(cells)
  }

  /** Whether every cell the row's entry reads is present. */
  predicate RowReadable(cells: seq<Cell>, category: string)
  {
    CellText(cells, 0).Some? && NameText(cells).Some? && CellText(cells, 2).Some?
    && (ToLower(category) in JS_SKILLS ==> CellText(cells, 3).Some?)
  }

  /** One row's entry: rank, level and xp (or score) without their first and last character, the name with U+FFFD as a space. */
  function ProcessRow(v: Reading, cells: seq<Cell>, mode: string, category: string): (r: Result<PlayerRow, Failure>)
    ensures r.Ok? <==> RowReadable(cells, category)
    ensures r.Err? ==> r.error == TypeError
    ensures r.Ok? ==> (r.value.mode == mode && r.value.category == category
      && r.value.rank == SliceInner(CellText(cells, 0).value)
      && r.value.rsn == ReplaceFffd(NameText(cells).value))
    ensures r.Ok? ==> (r.value.figures.LevelXp? <==> ToLower(category) in JS_SKILLS)
    ensures r.Ok? && ToLower(category) in JS_SKILLS ==>
      r.value.figures == LevelXp(SliceInner(CellText(cells, 2).value), SliceInner(CellText(cells, 3).value))
    ensures r.Ok? && ToLower(category) !in JS_SKILLS ==> r.value.figures == Score(SliceInner(CellText(cells, 2).value))
    ensures r.Ok? ==> (r.value.dead.Some? <==> mode == "hc")
    ensures r.Ok? && mode == "hc" && v == AsWritten ==> r.value.dead == Some(true)
    ensures r.Ok? && mode == "hc" && v == Intended ==> r.value.dead == Some(ElementCount(cells[1].children) > 1)
  {
    if !RowReadable(cells, category) then Err(TypeError)
    else
      var figures :=
        if ToLower(category) in JS_SKILLS then LevelXp(SliceInner(CellText(cells, 2).value), SliceInner(CellText(cells, 3).value))
        else Score(SliceInner(CellText(cells, 2).value));
      Ok(PlayerRow(mode, category, SliceInner(CellText(cells, 0).value), ReplaceFffd(NameText(cells).value),
                   figures, if mode == "hc" then Some(Dead(v, cells)) else None))
  }

  /** As written, every row whose name can be read has at least two children in its name cell, so it reads as dead. */
  lemma AsWrittenDeadAlwaysTrue(cells: seq<Cell>, category: string)
    requires RowReadable(cells, category)
    ensures DeadAsWritten(cells)
  {
  }

  /** A name cell of text, link, text: dead as written, not dead as intended. */
  lemma DeadFlagDiffers()
    ensures var name := Cell([CellNode(Some(" "), false, None), CellNode(None, true, Some("Zezima")),
                              CellNode(Some(" "), false, None)]);
      var cells := [Cell([CellNode(Some("\n1\n"), false, None)]), name, Cell([CellNode(Some("\n99\n"), false, None)]),
                    Cell([CellNode(Some("\n1\n"), false, None)])];
      && ProcessRow(Intended, cells, "hc", "overall").Ok?
      && ProcessRow(AsWritten, cells, "hc", "overall")
         == Ok(ProcessRow(Intended, cells, "hc", "overall").value.(dead := Some(true)))
      && ProcessRow(Intended, cells, "hc", "overall").value.dead == Some(false)
  {
    var name := Cell([CellNode(Some(" "), false, None), CellNode(None, true, Some("Zezima")),
                      CellNode(Some(" "), false, None)]);
    assert ElementCount(name.children) == 1;
    JsSkillsTable();
    assert ToLower("overall") == "overall";
  }

  /** Text nodes add no elements. */
  lemma {:induction false} ElementCountOfText(text: seq<CellNode>, rest: seq<CellNode>)
    requires forall i :: 0 <= i < |text| ==> !text[i].isElement
    ensures ElementCount(text + rest) == ElementCount(rest)
  {
    if text != [] {
      assert (text + rest)[1..] == text[1..] + rest;
      ElementCountOfText(text[1..], rest);
    } else {
      assert text + rest == rest;
    }
  }

  /** The intended flag ignores text nodes: whitespace around the name link never makes a row dead. */
  lemma DeadIgnoresTextNodes(cells: seq<Cell>, text: seq<CellNode>, rest: seq<CellNode>)
    requires |cells| >= 2
    requires forall i :: 0 <= i < |text| ==> !text[i].isElement
    ensures DeadFlag(cells[1 := Cell(text + rest)]) == DeadFlag(cells[1 := Cell(rest)])
  {
    ElementCountOfText(text, rest);
  }

  /** The entries of the rows, in order; the first unreadable row rejects the page. */
  function ProcessRows(v: Reading, rows: seq<seq<Cell>>, mode: string, category: string): (r: Result<seq<PlayerRow>, Failure>)
    ensures r.Ok? <==> forall i :: 0 <= i < |rows| ==> RowReadable(rows[i], category)
    ensures r.Ok? ==> (|r.value| == |rows|
      && forall i :: 0 <= i < |rows| ==> ProcessRow(v, rows[i], mode, category) == Ok(r.value[i]))
    ensures r.Err? ==> r.error == TypeError
    decreases |rows|
  {
    if rows == [] then Ok([])
    else
      var first := ProcessRow(v, rows[0], mode, category);
      var rest := ProcessRows(v, rows[1..], mode, category);
      assert forall i :: 1 <= i < |rows| ==> rows[i] == rows[1..][i - 1];
      if first.Err? || rest.Err? then Err(TypeError)
      else Ok([first.value] + rest.value)
  }

  /** As written, every entry of a hardcore page is dead. */
  lemma AsWrittenHardcorePageDead(rows: seq<seq<Cell>>, category: string)
    requires ProcessRows(AsWritten, rows, "hc", category).Ok?
    ensures forall i :: 0 <= i < |rows| ==> ProcessRows(AsWritten, rows, "hc", category).value[i].dead == Some(true)
  {
  }

  /** The two readings of a page accept the same rows and give the same entries up to the `dead` flag. */
  lemma ReadingsAgreeButDead(rows: seq<seq<Cell>>, mode: string, category: string)
    ensures ProcessRows(AsWritten, rows, mode, category).Ok? <==> ProcessRows(Intended, rows, mode, category).Ok?
    ensures ProcessRows(Intended, rows, mode, category).Ok? ==>
      forall i :: 0 <= i < |rows| ==>
        ProcessRows(AsWritten, rows, mode, category).value[i].(dead := None)
          == ProcessRows(Intended, rows, mode, category).value[i].(dead := None)
  {
  }

  /** The page's result: a rejected request rejects; otherwise the rows' entries. */
  function PageResult(v: Reading, q: HiscoresQuery, fetch: string -> Reply, rowsOf: string -> seq<seq<Cell>>)
    : Result<seq<PlayerRow>, Failure>
    requires q.mode in MODE_URLS
  {
    match fetch(HiscoresPageUrl(q, OTHER))
    case Rejected(reason) => Err(RequestFailed(reason))
    case Reply(_, data) => ProcessRows(v, rowsOf(data), q.mode, q.category)
  }

  /** `getHiscoresPage`: the request, then one entry per row. */
  method GetHiscoresPage(v: Reading, q: HiscoresQuery, fetch: string -> Reply, rowsOf: string -> seq<seq<Cell>>)
      returns (r: Result<seq<PlayerRow>, Failure>)
    requires q.mode in MODE_URLS
    ensures r == PageResult(v, q, fetch, rowsOf)
  {
    var response := fetch(HiscoresPageUrl(q, OTHER));
    if response.Rejected? {
      return Err(RequestFailed(response.reason));
    }
    r := ProcessPage(v, rowsOf(response.data), q.mode, q.category);
  }

  /** The loop over the page's rows, pushing each row's entry. */
  method ProcessPage(v: Reading, rows: seq<seq<Cell>>, mode: string, category: string) returns (r: Result<seq<PlayerRow>, Failure>)
    ensures r == ProcessRows(v, rows, mode, category)
  {
    var players: seq<PlayerRow> := [];
    var i := 0;
    while i < |rows|
      invariant 0 <= i <= |rows| && |players| == i
      invariant forall k :: 0 <= k < i ==> ProcessRow(v, rows[k], mode, category) == Ok(players[k])
    {
      var entry := ProcessRow(v, rows[i], mode, category);
      if entry.Err? {
        return Err(TypeError);
      }
      players := players + [entry.value];
      i := i + 1;
    }
    var all := ProcessRows(v, rows, mode, category);
    assert all.value == players;
    return Ok(players);
  }

  /** `getHiscores(mode, category, page)`: the argument checks, then the page. */
  method GetHiscores(v: Reading, mode: string, category: string, page: PageArg, fetch: string -> Reply,
                     rowsOf: string -> seq<seq<Cell>>)
      returns (r: Result<seq<PlayerRow>, Failure>)
    ensures CheckHiscoresArgs(mode, category, page, OTHER).Err?
      ==> r == Err(Thrown(CheckHiscoresArgs(mode, category, page, OTHER).error))
    ensures CheckHiscoresArgs(mode, category, page, OTHER).Ok?
      ==> r == PageResult(v, CheckHiscoresArgs(mode, category, page, OTHER).value, fetch, rowsOf)
  {
    var checked := CheckHiscoresArgs(mode, category, page, OTHER);
    if checked.Err? {
      return Err(Thrown(checked.error));
    }
    r := GetHiscoresPage(v, checked.value, fetch, rowsOf);
  }

  /** A boss-free activity's page is table `category_type=1&table=j` for its position j in `other`. */
  lemma ActivityPageTable(j: int)
    requires 0 <= j < |OTHER|
    ensures TableParam(OTHER[j], OTHER) == "category_type=1&table=" + IntToString(j)
  {
    ClientTables();
    OtherApartFromSkills();
    OtherTableParam(j, OTHER);
  }
}
