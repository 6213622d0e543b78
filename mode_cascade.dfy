/**
 * The game-mode decision of `getPlayerStats` in full mode, shared by both
 * JavaScript clients. The variant lookups' outcomes select a mode (hardcore
 * before ultimate before ironman, main without an ironman record); then the
 * overall xp of the attached records is compared: a hardcore whose ironman
 * xp differs from its hardcore xp has died (mode ironman), and any ironman
 * variant whose main xp differs from its ironman xp has de-ironed (mode
 * main), the later assignment winning.
 */
module ModeCascade {

  /** The modes the full lookup can settle on. */
  datatype Mode = Main | Iron | Hardcore | Ultimate

  /** The mode chosen from which variant lookups succeeded. */
  function SelectMode(ironOk: bool, hcOk: bool, ultOk: bool): (m: Mode)
    ensures m == Hardcore <==> ironOk && hcOk
    ensures m == Ultimate <==> ironOk && !hcOk && ultOk
    ensures m == Iron <==> ironOk && !hcOk && !ultOk
    ensures m == Main <==> !ironOk
  {
    if ironOk then
      if hcOk then Hardcore else if ultOk then Ultimate else Iron
    else Main
  }

  /** The records parsed and attached to the player for a selected mode. */
  function Attached(selected: Mode): (modes: set<Mode>)
    ensures Main in modes
    ensures Iron in modes <==> selected != Main
    ensures Hardcore in modes <==> selected == Hardcore
    ensures Ultimate in modes <==> selected == Ultimate
  {
    match selected
    case Main => {Main}
    case Iron => {Main, Iron}
    case Hardcore => {Main, Iron, Hardcore}
    case Ultimate => {Main, Iron, Ultimate}
  }

  /** The records whose overall xp the cascade reads for a selected mode. */
  function Compared(selected: Mode): (modes: set<Mode>)
    ensures modes <= Attached(selected)
    ensures Ultimate !in modes
  {
    match selected
    case Main => {}
    case Iron => {Main, Iron}
    case Hardcore => {Main, Iron, Hardcore}
    case Ultimate => {Main, Iron}
  }

  datatype Decision = Decision(mode: Mode, dead: bool, deironed: bool)

  /**
   * The outcome of the cascade, stated flag by flag: `deironed` exactly when
   * an ironman variant's main and ironman xp differ, `dead` exactly when a
   * hardcore's ironman and hardcore xp differ, and the mode falls back to
   * main when de-ironed, otherwise to ironman when dead.
   */
  function Decide<X(==)>(selected: Mode, mainXp: X, ironXp: X, hcXp: X): Decision
  {
    var deironed := selected != Main && mainXp != ironXp;
    var dead := selected == Hardcore && ironXp != hcXp;
    Decision(if deironed then Main else if dead then Iron else selected, dead, deironed)
  }

  /** De-ironing overrides death: a de-ironed player is reported as main. */
  lemma DeironedIsMain<X>(selected: Mode, mainXp: X, ironXp: X, hcXp: X)
    requires Decide(selected, mainXp, ironXp, hcXp).deironed
    ensures Decide(selected, mainXp, ironXp, hcXp).mode == Main
    ensures selected != Main
  {
  }

  /** Only a selected hardcore can be dead, and a dead player is never reported as hardcore. */
  lemma DeadOnlyFromHardcore<X>(selected: Mode, mainXp: X, ironXp: X, hcXp: X)
    requires Decide(selected, mainXp, ironXp, hcXp).dead
    ensures selected == Hardcore
    ensures Decide(selected, mainXp, ironXp, hcXp).mode in {Iron, Main}
  {
  }

  /** The reported mode always has its record attached. */
  lemma ReportedModeAttached<X>(selected: Mode, mainXp: X, ironXp: X, hcXp: X)
    ensures Decide(selected, mainXp, ironXp, hcXp).mode in Attached(selected)
  {
  }

  /** The decision reads only the xp of the compared records: the hardcore xp matters only for a hardcore. */
  lemma HardcoreXpOnlyForHardcore<X>(selected: Mode, mainXp: X, ironXp: X, hcXp: X, otherXp: X)
    requires selected != Hardcore
    ensures Decide(selected, mainXp, ironXp, hcXp) == Decide(selected, mainXp, ironXp, otherXp)
  {
  }

  /** With equal xp throughout, the selected mode stands and no flag is set. */
  lemma ConsistentXpKeepsSelection<X>(selected: Mode, xp: X)
    ensures Decide(selected, xp, xp, xp) == Decision(selected, false, false)
  {
  }

  /** Full-mode selection followed by the cascade: every reachable (mode, dead, deironed) triple. */
  lemma ReachableOutcomes<X>(ironOk: bool, hcOk: bool, ultOk: bool, mainXp: X, ironXp: X, hcXp: X)
    ensures var d := Decide(SelectMode(ironOk, hcOk, ultOk), mainXp, ironXp, hcXp);
      (d.mode == Hardcore ==> ironOk && hcOk && !d.dead && !d.deironed)
      && (d.mode == Ultimate ==> ironOk && !hcOk && ultOk && !d.deironed)
      && (d.mode == Iron ==> ironOk && !d.deironed && (d.dead <==> hcOk))
      && (d.mode == Main ==> (!ironOk || d.deironed))
  {
  }
}
