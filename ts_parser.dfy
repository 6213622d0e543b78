/**
 * `parseStats` of the TypeScript client: the payload is split into lines,
 * blank lines are dropped and every line is split on ','. Lines with three
 * fields become skills and lines with two fields become activities, each
 * parsed base 10; lines with any other field count are discarded. The
 * activity list is then consumed front to back by three `splice` calls
 * (bounty hunter, last man standing, clue scrolls), and each run is folded
 * into an object keyed by its table.
 *
 * The bounty-hunter table `BH` comes from the utils index module, which is
 * not part of this model, so it is a parameter `bhNames` here.
 */
module TsParser {
  import opened Wrappers
  import opened JsBuiltins
  import opened Records
  import opened Constants

  datatype Skill = Skill(rank: JsNumber, level: JsNumber, xp: JsNumber)
  datatype Activity = Activity(rank: JsNumber, score: JsNumber)

  /** The parsed payload: exactly the four properties the parser returns. */
  datatype Stats = Stats(
    skills: map<Key<SkillName>, Skill>,
    bh: map<Key<BHType>, Activity>,
    lms: Option<Activity>,
    clues: map<Key<ClueType>, Activity>)

  type Row = seq<string>

  // ------------------------------------------------------------------
  // Lines and rows
  // ------------------------------------------------------------------

  /** `lines.map(stat => stat.split(','))`. */
  function FieldsOf(lines: seq<string>): seq<Row>
  {
    seq(|lines|, i requires 0 <= i < |lines| => Split(lines[i], ','))
  }

  /** The rows of a payload: its non-blank lines, each split into fields. */
  function Rows(csv: string): seq<Row>
  {
    FieldsOf(NonBlank(Split(csv, '\n')))
  }

  /** `rows.filter(stat => stat.length === n)`: the rows with exactly `n` fields, in order. */
  function WithFieldCount(rows: seq<Row>, n: nat): (sel: seq<Row>)
    ensures |sel| <= |rows|
    ensures forall i :: 0 <= i < |sel| ==> |sel[i]| == n && sel[i] in rows
    decreases |rows|
  {
    if rows == [] then []
    else (if |rows[0]| == n then [rows[0]] else []) + WithFieldCount(rows[1..], n)
  }

  function ToSkill(row: Row): Skill
    requires |row| == 3
  {
    Skill(ParseInt(row[0]), ParseInt(row[1]), ParseInt(row[2]))
  }

  function ToActivity(row: Row): Activity
    requires |row| == 2
  {
    Activity(ParseInt(row[0]), ParseInt(row[1]))
  }

  /** The skill objects: one per three-field row, in row order. */
  function SkillObjects(rows: seq<Row>): seq<Skill>
  {
    var three := WithFieldCount(rows, 3);
    seq(|three|, i requires 0 <= i < |three| => ToSkill(three[i]))
  }

  /** The activity objects: one per two-field row, in row order. */
  function ActivityObjects(rows: seq<Row>): seq<Activity>
  {
    var two := WithFieldCount(rows, 2);
    seq(|two|, i requires 0 <= i < |two| => ToActivity(two[i]))
  }

  // ------------------------------------------------------------------
  // The splices, as a list consumed in place
  // ------------------------------------------------------------------

  /** The activity list that the three `splice(0, n)` calls consume. */
  class ActivityList {
    var items: seq<Activity>

    constructor(items: seq<Activity>)
      ensures this.items == items
    {
      this.items := items;
    }

    /** `splice(0, deleteCount)`: removes and returns the first `deleteCount` items, or all if fewer. */
    method Splice(deleteCount: nat) returns (removed: seq<Activity>)
      modifies this
      ensures |removed| == Min(deleteCount, |old(items)|)
      ensures removed + items == old(items)
    {
      var n := Min(deleteCount, |items|);
      removed := items[..n];
      items := items[n..];
    }
  }

  /** The skills object: the i-th skill object under SKILLS[i]. */
  function SkillsOf(rows: seq<Row>): map<Key<SkillName>, Skill>
  {
    Assign(map[], SKILLS, SkillObjects(rows))
  }

  /** The bounty-hunter object: the first |bhNames| activities under the table's names. */
  function BhOf(rows: seq<Row>, bhNames: seq<BHType>): map<Key<BHType>, Activity>
  {
    Assign(map[], bhNames, Run(ActivityObjects(rows), 0, |bhNames|))
  }

  /** lms: the activity right after the bounty-hunter run, if there is one. */
  function LmsOf(rows: seq<Row>, bhNames: seq<BHType>): Option<Activity>
  {
    var acts := ActivityObjects(rows);
    if |bhNames| < |acts| then Some(acts[|bhNames|]) else None
  }

  /** The clues object: the |CLUES| activities after lms under the tier names. */
  function CluesOf(rows: seq<Row>, bhNames: seq<BHType>): map<Key<ClueType>, Activity>
  {
    Assign(map[], CLUES, Run(ActivityObjects(rows), |bhNames| + 1, |CLUES|))
  }

  /**
   * The result of the parser, by offsets into the activity list: the first
   * |bhNames| activities are the bounty-hunter run, the next one is lms and
   * the |CLUES| after that are the clue run.
   */
  function ParseRows(rows: seq<Row>, bhNames: seq<BHType>): Stats
  {
    Stats(SkillsOf(rows), BhOf(rows, bhNames), LmsOf(rows, bhNames), CluesOf(rows, bhNames))
  }

  function Parse(csv: string, bhNames: seq<BHType>): Stats
  {
    ParseRows(Rows(csv), bhNames)
  }

  /** `parseStats(csv)`: classify rows, then splice the activity list front to back. */
  method ParseStats(csv: string, bhNames: seq<BHType>) returns (stats: Stats)
    ensures stats == Parse(csv, bhNames)
  {
    stats := StatsFromRows(Rows(csv), bhNames);
  }

  /** The object built from the payload's rows: skills by position, then the activity list spliced in turn. */
  method StatsFromRows(rows: seq<Row>, bhNames: seq<BHType>) returns (stats: Stats)
    ensures stats == ParseRows(rows, bhNames)
  {
    var skillObjects := SkillObjects(rows);
    var bhObjects, lms, clueObjects := SpliceActivities(ActivityObjects(rows), |bhNames|);
    stats := Stats(
      Assign(map[], SKILLS, skillObjects),
      Assign(map[], bhNames, bhObjects),
      lms,
      Assign(map[], CLUES, clueObjects));
  }

  /** The three `splice(0, n)` calls on the activity list: the bounty-hunter run, lms, then the clue run. */
  method SpliceActivities(activities: seq<Activity>, bhCount: nat)
      returns (bhObjects: seq<Activity>, lms: Option<Activity>, clueObjects: seq<Activity>)
    ensures bhObjects == Run(activities, 0, bhCount)
    ensures lms == if bhCount < |activities| then Some(activities[bhCount]) else None
    ensures clueObjects == Run(activities, bhCount + 1, |CLUES|)
  {
    var activityObjects := new ActivityList(activities);
    bhObjects := activityObjects.Splice(bhCount);
    assert bhObjects == Run(activities, 0, bhCount);
    var lmsRun := activityObjects.Splice(1);
    lms := if |lmsRun| > 0 then Some(lmsRun[0]) else None;
    assert bhCount < |activities| ==> lms == Some(activities[bhCount]);
    clueObjects := activityObjects.Splice(|CLUES|);
  }

  // ------------------------------------------------------------------
  // Lines: blank lines do not matter
  // ------------------------------------------------------------------

  lemma FieldsOfAppend(a: seq<string>, b: seq<string>)
    ensures FieldsOf(a + b) == FieldsOf(a) + FieldsOf(b)
  {
  }

  /** The rows of two payload parts joined by a newline are the rows of each part, in order. */
  lemma RowsOfJoinedLines(a: string, b: string)
    ensures Rows(a + "\n" + b) == Rows(a) + Rows(b)
  {
    NonBlankLinesJoined(a, b);
    FieldsOfAppend(NonBlank(Split(a, '\n')), NonBlank(Split(b, '\n')));
  }

  /** An extra blank line between two parts of the payload changes nothing. */
  lemma BlankLineIgnored(a: string, b: string, bhNames: seq<BHType>)
    ensures Rows(a + "\n\n" + b) == Rows(a + "\n" + b)
    ensures Parse(a + "\n\n" + b, bhNames) == Parse(a + "\n" + b, bhNames)
  {
    ExtraBlankLine(a, b);
  }

  // ------------------------------------------------------------------
  // Rows: only the three- and two-field subsequences matter
  // ------------------------------------------------------------------

  lemma {:induction false} WithFieldCountAppend(a: seq<Row>, b: seq<Row>, n: nat)
    ensures WithFieldCount(a + b, n) == WithFieldCount(a, n) + WithFieldCount(b, n)
    decreases |a|
  {
    if a != [] {
      assert (a + b)[0] == a[0];
      assert (a + b)[1..] == a[1..] + b;
      WithFieldCountAppend(a[1..], b, n);
    } else {
      assert a + b == b;
    }
  }

  lemma WithFieldCountSingle(r: Row, n: nat)
    ensures WithFieldCount([r], n) == if |r| == n then [r] else []
  {
    assert [r][1..] == [];
  }

  lemma {:induction false} NoRowWithFieldCount(rows: seq<Row>, n: nat)
    requires forall i :: 0 <= i < |rows| ==> |rows[i]| != n
    ensures WithFieldCount(rows, n) == []
    decreases |rows|
  {
    if rows != [] {
      NoRowWithFieldCount(rows[1..], n);
    }
  }

  lemma DiscardWithFieldCount(x: seq<Row>, r: Row, y: seq<Row>, n: nat)
    requires |r| != n
    ensures WithFieldCount(x + [r] + y, n) == WithFieldCount(x + y, n)
  {
    WithFieldCountAppend(x + [r], y, n);
    WithFieldCountAppend(x, [r], n);
    WithFieldCountAppend(x, y, n);
    WithFieldCountSingle(r, n);
  }

  /** A row whose field count is neither 2 nor 3 is discarded. */
  lemma OtherFieldCountDiscarded(x: seq<Row>, r: Row, y: seq<Row>, bhNames: seq<BHType>)
    requires |r| != 2 && |r| != 3
    ensures ParseRows(x + [r] + y, bhNames) == ParseRows(x + y, bhNames)
  {
    DiscardWithFieldCount(x, r, y, 2);
    DiscardWithFieldCount(x, r, y, 3);
  }

  lemma SwapPair(r: Row, s: Row, n: nat)
    requires |r| != |s|
    ensures WithFieldCount([r, s], n) == WithFieldCount([s, r], n)
  {
    WithFieldCountAppend([r], [s], n);
    WithFieldCountAppend([s], [r], n);
    assert [r] + [s] == [r, s] && [s] + [r] == [s, r];
    WithFieldCountSingle(r, n);
    WithFieldCountSingle(s, n);
  }

  lemma SwapWithFieldCount(x: seq<Row>, r: Row, s: Row, y: seq<Row>, n: nat)
    requires |r| != |s|
    ensures WithFieldCount(x + [r, s] + y, n) == WithFieldCount(x + [s, r] + y, n)
  {
    WithFieldCountAppend(x + [r, s], y, n);
    WithFieldCountAppend(x, [r, s], n);
    WithFieldCountAppend(x + [s, r], y, n);
    WithFieldCountAppend(x, [s, r], n);
    SwapPair(r, s, n);
  }

  /** Swapping an adjacent skill row and activity row changes nothing. */
  lemma InterleavingIrrelevant(x: seq<Row>, r: Row, s: Row, y: seq<Row>, bhNames: seq<BHType>)
    requires |r| == 3 && |s| == 2
    ensures ParseRows(x + [r, s] + y, bhNames) == ParseRows(x + [s, r] + y, bhNames)
  {
    SwapWithFieldCount(x, r, s, y, 2);
    SwapWithFieldCount(x, r, s, y, 3);
  }

  // ------------------------------------------------------------------
  // Slots
  // ------------------------------------------------------------------

  /** The i-th three-field row is stored under SKILLS[i]. */
  lemma SkillSlot(rows: seq<Row>, bhNames: seq<BHType>, i: nat)
    requires i < |WithFieldCount(rows, 3)| && i < |SKILLS|
    ensures Named(SKILLS[i]) in ParseRows(rows, bhNames).skills
    ensures ParseRows(rows, bhNames).skills[Named(SKILLS[i])] == ToSkill(WithFieldCount(rows, 3)[i])
  {
    SkillsTable();
    AssignNamed(map[], SKILLS, SkillObjects(rows), i);
  }

  /** The first three-field row is always `overall`. */
  lemma OverallIsFirstSkillRow(rows: seq<Row>, bhNames: seq<BHType>)
    requires WithFieldCount(rows, 3) != []
    ensures Named(Overall) in ParseRows(rows, bhNames).skills
    ensures ParseRows(rows, bhNames).skills[Named(Overall)] == ToSkill(WithFieldCount(rows, 3)[0])
  {
    SkillsTable();
    SkillSlot(rows, bhNames, 0);
  }

  /** Three-field rows past the skill table are written to the property "undefined"; the last one wins. */
  lemma SkillOverflow(rows: seq<Row>, bhNames: seq<BHType>)
    requires |WithFieldCount(rows, 3)| > |SKILLS|
    ensures var three := WithFieldCount(rows, 3);
      ParseRows(rows, bhNames).skills[Undefined] == ToSkill(three[|three| - 1])
  {
    AssignOverflow(map[], SKILLS, SkillObjects(rows));
  }

  /** The first |bhNames| activity rows fill the bounty-hunter slots in table order. */
  lemma BhSlot(rows: seq<Row>, bhNames: seq<BHType>, i: nat)
    requires Distinct(bhNames)
    requires i < |bhNames| && i < |WithFieldCount(rows, 2)|
    ensures Named(bhNames[i]) in ParseRows(rows, bhNames).bh
    ensures ParseRows(rows, bhNames).bh[Named(bhNames[i])] == ToActivity(WithFieldCount(rows, 2)[i])
  {
    var run := Run(ActivityObjects(rows), 0, |bhNames|);
    AssignNamed(map[], bhNames, run, i);
  }

  /** The activity row right after the bounty-hunter run is lms; without one, lms is undefined. */
  lemma LmsSlot(rows: seq<Row>, bhNames: seq<BHType>)
    ensures var two := WithFieldCount(rows, 2);
      ParseRows(rows, bhNames).lms == if |bhNames| < |two| then Some(ToActivity(two[|bhNames|])) else None
  {
  }

  /** The |CLUES| activity rows after lms fill the clue slots in tier order. */
  lemma ClueSlot(rows: seq<Row>, bhNames: seq<BHType>, i: nat)
    requires i < |CLUES| && |bhNames| + 1 + i < |WithFieldCount(rows, 2)|
    ensures Named(CLUES[i]) in ParseRows(rows, bhNames).clues
    ensures ParseRows(rows, bhNames).clues[Named(CLUES[i])] == ToActivity(WithFieldCount(rows, 2)[|bhNames| + 1 + i])
  {
    CluesTable();
    var acts := ActivityObjects(rows);
    var run := Run(acts, |bhNames| + 1, |CLUES|);
    assert ParseRows(rows, bhNames).clues == Assign(map[], CLUES, run);
    assert run[i] == acts[|bhNames| + 1 + i];
    AssignNamed(map[], CLUES, run, i);
  }

  lemma SkillObjectsAppend(rows: seq<Row>, extra: seq<Row>)
    requires forall i :: 0 <= i < |extra| ==> |extra[i]| == 2
    ensures SkillObjects(rows + extra) == SkillObjects(rows)
  {
    WithFieldCountAppend(rows, extra, 3);
    NoRowWithFieldCount(extra, 3);
    assert WithFieldCount(rows + extra, 3) == WithFieldCount(rows, 3);
  }

  lemma ActivityObjectsAppend(rows: seq<Row>, extra: seq<Row>)
    ensures ActivityObjects(rows + extra) == ActivityObjects(rows) + ActivityObjects(extra)
  {
    WithFieldCountAppend(rows, extra, 2);
    var a := WithFieldCount(rows, 2);
    var b := WithFieldCount(extra, 2);
    var all := ActivityObjects(rows + extra);
    var left := ActivityObjects(rows);
    var right := ActivityObjects(extra);
    assert |all| == |left| + |right|;
    forall i | 0 <= i < |all| ensures all[i] == (left + right)[i] {
      if i < |a| {
        assert (a + b)[i] == a[i];
      } else {
        assert (a + b)[i] == b[i - |a|];
      }
    }
  }

  lemma RunOfExtended<T>(s: seq<T>, t: seq<T>, start: nat, len: nat)
    requires start + len <= |s|
    ensures Run(s + t, start, len) == Run(s, start, len)
  {
  }

  /** Once the clue run is complete, further activity rows change nothing. */
  lemma ExtraActivityRowsIgnored(rows: seq<Row>, extra: seq<Row>, bhNames: seq<BHType>)
    requires |WithFieldCount(rows, 2)| >= |bhNames| + 1 + |CLUES|
    requires forall i :: 0 <= i < |extra| ==> |extra[i]| == 2
    ensures ParseRows(rows + extra, bhNames) == ParseRows(rows, bhNames)
  {
    SkillObjectsAppend(rows, extra);
    ActivityObjectsAppend(rows, extra);
    var acts := ActivityObjects(rows);
    var more := ActivityObjects(extra);
    RunOfExtended(acts, more, 0, |bhNames|);
    RunOfExtended(acts, more, |bhNames| + 1, |CLUES|);
    assert (acts + more)[|bhNames|] == acts[|bhNames|];
  }

  /** A complete payload sets every skill, bounty-hunter and clue name, and nothing else. */
  lemma CompletePayloadKeys(rows: seq<Row>, bhNames: seq<BHType>)
    requires |WithFieldCount(rows, 3)| == |SKILLS|
    requires |WithFieldCount(rows, 2)| >= |bhNames| + 1 + |CLUES|
    ensures ParseRows(rows, bhNames).skills.Keys == set s | s in SKILLS :: Named(s)
    ensures ParseRows(rows, bhNames).bh.Keys == set b | b in bhNames :: Named(b)
    ensures ParseRows(rows, bhNames).clues.Keys == set c | c in CLUES :: Named(c)
    ensures ParseRows(rows, bhNames).lms.Some?
  {
    var acts := ActivityObjects(rows);
    KeysOfFullTable(map[], SKILLS, SkillObjects(rows));
    KeysOfFullTable(map[], bhNames, Run(acts, 0, |bhNames|));
    KeysOfFullTable(map[], CLUES, Run(acts, |bhNames| + 1, |CLUES|));
  }

  lemma SplitSentinels()
    ensures Split("-1,-1", ',') == ["-1", "-1"]
    ensures Split("-1,-1,-1", ',') == ["-1", "-1", "-1"]
  {
    SplitNoSep("-1", ',');
    SplitAround("-1", ',', "-1");
    assert "-1,-1" == "-1" + [','] + "-1";
    SplitAround("-1", ',', "-1,-1");
    assert "-1,-1,-1" == "-1" + [','] + "-1,-1";
  }

  lemma SingleLineRows(line: string)
    requires line != [] && '\n' !in line
    ensures Rows(line) == [Split(line, ',')]
  {
    SplitNoSep(line, '\n');
    assert [line][1..] == [];
  }

  /** The missing-value sentinel "-1" reads as -1 in every field of a skill line. */
  lemma SentinelSkillLine()
    ensures Rows("-1,-1,-1") == [["-1", "-1", "-1"]]
    ensures ToSkill(["-1", "-1", "-1"]) == Skill(Num(-1), Num(-1), Num(-1))
  {
    SplitSentinels();
    SingleLineRows("-1,-1,-1");
    assert Rows("-1,-1,-1") == [["-1", "-1", "-1"]];
    ParseIntMinusOne();
  }

  /** The missing-value sentinel "-1" reads as -1 in both fields of an activity line. */
  lemma SentinelActivityLine()
    ensures Rows("-1,-1") == [["-1", "-1"]]
    ensures ToActivity(["-1", "-1"]) == Activity(Num(-1), Num(-1))
  {
    SplitSentinels();
    SingleLineRows("-1,-1");
    assert Rows("-1,-1") == [["-1", "-1"]];
    ParseIntMinusOne();
  }
}
