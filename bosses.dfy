/**
 * The boss table of the TypeScript client's constants: every boss the
 * hiscores service ranks, in the order of its activity rows, and the display
 * name of each. The table is written as seven runs of at most ten names.
 */
module Bosses {
  import opened JsBuiltins

  datatype Boss =
    | AbyssalSire | AlchemicalHydra | Amoxliatl | Araxxor | Artio
    | Barrows | Bryophyta | Callisto | Calvarion | Cerberus
    | ChambersOfXeric | ChambersOfXericChallengeMode | ChaosElemental | ChaosFanatic | CommanderZilyana
    | CorporealBeast | CrazyArchaeologist | DagannothPrime | DagannothRex | DagannothSupreme
    | DerangedArchaeologist | DoomOfMokhaiotl | DukeSucellus | GeneralGraardor | GiantMole
    | GrotesqueGuardians | Hespori | KalphiteQueen | KingBlackDragon | Kraken
    | KreeArra | KrilTsutsaroth | LunarChests | Mimic | Nex
    | Nightmare | PhosanisNightmare | Obor | PhantomMuspah | Sarachnis
    | Scorpia | Scurrius | Skotizo | SolHeredit | Spindel
    | Tempoross | Gauntlet | CorruptedGauntlet | Hueycoatl | Leviathan
    | RoyalTitans | Whisperer | TheatreOfBlood | TheatreOfBloodHardMode | ThermonuclearSmokeDevil
    | TombsOfAmascut | TombsOfAmascutExpertMode | TzKalZuk | TzTokJad | Vardorvis
    | Venenatis | Vetion | Vorkath | Wintertodt | Yama
    | Zalcano | Zulrah

  const BOSSES_A: seq<Boss> := [
    AbyssalSire, AlchemicalHydra, Amoxliatl, Araxxor, Artio,
    Barrows, Bryophyta, Callisto, Calvarion, Cerberus
  ]
  const BOSSES_B: seq<Boss> := [
    ChambersOfXeric, ChambersOfXericChallengeMode, ChaosElemental, ChaosFanatic, CommanderZilyana,
    CorporealBeast, CrazyArchaeologist, DagannothPrime, DagannothRex, DagannothSupreme
  ]
  const BOSSES_C: seq<Boss> := [
    DerangedArchaeologist, DoomOfMokhaiotl, DukeSucellus, GeneralGraardor, GiantMole,
    GrotesqueGuardians, Hespori, KalphiteQueen, KingBlackDragon, Kraken
  ]
  const BOSSES_D: seq<Boss> := [
    KreeArra, KrilTsutsaroth, LunarChests, Mimic, Nex,
    Nightmare, PhosanisNightmare, Obor, PhantomMuspah, Sarachnis
  ]
  const BOSSES_E: seq<Boss> := [
    Scorpia, Scurrius, Skotizo, SolHeredit, Spindel,
    Tempoross, Gauntlet, CorruptedGauntlet, Hueycoatl, Leviathan
  ]
  const BOSSES_F: seq<Boss> := [
    RoyalTitans, Whisperer, TheatreOfBlood, TheatreOfBloodHardMode, ThermonuclearSmokeDevil,
    TombsOfAmascut, TombsOfAmascutExpertMode, TzKalZuk, TzTokJad, Vardorvis
  ]
  const BOSSES_G: seq<Boss> := [
    Venenatis, Vetion, Vorkath, Wintertodt, Yama,
    Zalcano, Zulrah
  ]

  /** The bosses in hiscores order. */
  const BOSSES: seq<Boss> :=
    BOSSES_A + BOSSES_B + BOSSES_C + BOSSES_D + BOSSES_E + BOSSES_F + BOSSES_G

  /** Each run names ten (the last one seven) different bosses. */
  lemma RunsDistinct()
    ensures |BOSSES_A| == 10 && |BOSSES_B| == 10 && |BOSSES_C| == 10 && |BOSSES_D| == 10
    ensures |BOSSES_E| == 10 && |BOSSES_F| == 10 && |BOSSES_G| == 7
    ensures Distinct(BOSSES_A) && Distinct(BOSSES_B) && Distinct(BOSSES_C) && Distinct(BOSSES_D)
    ensures Distinct(BOSSES_E) && Distinct(BOSSES_F) && Distinct(BOSSES_G)
  {
  }

  lemma ApartB()
    ensures forall x :: x in BOSSES_B ==> x !in BOSSES_A
  {
  }

  lemma ApartC()
    ensures forall x :: x in BOSSES_C ==> x !in BOSSES_A && x !in BOSSES_B
  {
  }

  lemma ApartD()
    ensures forall x :: x in BOSSES_D ==> x !in BOSSES_A && x !in BOSSES_B && x !in BOSSES_C
  {
  }

  lemma ApartE()
    ensures forall x :: x in BOSSES_E ==> x !in BOSSES_A && x !in BOSSES_B && x !in BOSSES_C && x !in BOSSES_D
  {
  }

  lemma ApartF()
    ensures forall x :: x in BOSSES_F ==> x !in BOSSES_A && x !in BOSSES_B && x !in BOSSES_C && x !in BOSSES_D && x !in BOSSES_E
  {
  }

  lemma ApartG()
    ensures forall x :: x in BOSSES_G ==> x !in BOSSES_A && x !in BOSSES_B && x !in BOSSES_C && x !in BOSSES_D && x !in BOSSES_E && x !in BOSSES_F
  {
  }

  /** BOSSES lists every boss exactly once. */
  lemma BossesTable()
    ensures |BOSSES| == 67
    ensures Distinct(BOSSES)
    ensures forall b: Boss :: b in BOSSES
  {
    RunsDistinct();
    ApartB(); ApartC(); ApartD(); ApartE(); ApartF(); ApartG();
    var ab := BOSSES_A + BOSSES_B;
    DistinctAppend(BOSSES_A, BOSSES_B);
    var ac := ab + BOSSES_C;
    DistinctAppend(ab, BOSSES_C);
    var ad := ac + BOSSES_D;
    DistinctAppend(ac, BOSSES_D);
    var ae := ad + BOSSES_E;
    DistinctAppend(ad, BOSSES_E);
    var af := ae + BOSSES_F;
    DistinctAppend(ae, BOSSES_F);
    DistinctAppend(af, BOSSES_G);
    forall b: Boss ensures b in BOSSES {
      BossListed(b);
    }
  }

  lemma BossListed(b: Boss)
    ensures b in BOSSES_A || b in BOSSES_B || b in BOSSES_C || b in BOSSES_D
         || b in BOSSES_E || b in BOSSES_F || b in BOSSES_G
  {
  }

  /** The display name of each boss. */
  const FORMATTED_BOSS_NAMES: map<Boss, string> :=
      map[
        AbyssalSire := "Abyssal Sire",
        AlchemicalHydra := "Alchemical Hydra",
        Amoxliatl := "Amoxliatl",
        Araxxor := "Araxxor",
        Artio := "Artio",
        Barrows := "Barrows Chests",
        Bryophyta := "Bryophyta",
        Callisto := "Callisto",
        Calvarion := "Calvar'ion",
        Cerberus := "Cerberus"
      ]
    + map[
        ChambersOfXeric := "Chambers of Xeric",
        ChambersOfXericChallengeMode := "Chambers of Xeric: Challenge Mode",
        ChaosElemental := "Chaos Elemental",
        ChaosFanatic := "Chaos Fanatic",
        CommanderZilyana := "Commander Zilyana",
        CorporealBeast := "Corporeal Beast",
        CrazyArchaeologist := "Crazy Archaeologist",
        DagannothPrime := "Dagannoth Prime",
        DagannothRex := "Dagannoth Rex",
        DagannothSupreme := "Dagannoth Supreme"
      ]
    + map[
        DerangedArchaeologist := "Deranged Archaeologist",
        DoomOfMokhaiotl := "Doom of Mokhaiotl",
        DukeSucellus := "Duke Sucellus",
        GeneralGraardor := "General Graardor",
        GiantMole := "Giant Mole",
        GrotesqueGuardians := "Grotesque Guardians",
        Hespori := "Hespori",
        KalphiteQueen := "Kalphite Queen",
        KingBlackDragon := "King Black Dragon",
        Kraken := "Kraken"
      ]
    + map[
        KreeArra := "Kree'Arra",
        KrilTsutsaroth := "K'ril Tsutsaroth",
        LunarChests := "Lunar Chests",
        Mimic := "Mimic",
        Nex := "Nex",
        Nightmare := "Nightmare",
        PhosanisNightmare := "Phosani's Nightmare",
        Obor := "Obor",
        PhantomMuspah := "Phantom Muspah",
        Sarachnis := "Sarachnis"
      ]
    + map[
        Scorpia := "Scorpia",
        Scurrius := "Scurrius",
        Skotizo := "Skotizo",
        SolHeredit := "Sol Heredit",
        Spindel := "Spindel",
        Tempoross := "Tempoross",
        Gauntlet := "The Gauntlet",
        CorruptedGauntlet := "The Corrupted Gauntlet",
        Hueycoatl := "The Hueycoatl",
        Leviathan := "The Leviathan"
      ]
    + map[
        RoyalTitans := "The Royal Titans",
        Whisperer := "The Whisperer",
        TheatreOfBlood := "Theatre of Blood",
        TheatreOfBloodHardMode := "Theatre of Blood: Hard Mode",
        ThermonuclearSmokeDevil := "Thermonuclear Smoke Devil",
        TombsOfAmascut := "Tombs of Amascut",
        TombsOfAmascutExpertMode := "Tombs of Amascut: Expert Mode",
        TzKalZuk := "TzKal-Zuk",
        TzTokJad := "TzTok-Jad",
        Vardorvis := "Vardorvis"
      ]
    + map[
        Venenatis := "Venenatis",
        Vetion := "Vet'ion",
        Vorkath := "Vorkath",
        Wintertodt := "Wintertodt",
        Yama := "Yama",
        Zalcano := "Zalcano",
        Zulrah := "Zulrah"
      ]

  /** Every boss has a display name. */
  lemma FormattedBossNamesTotal(b: Boss)
    ensures b in FORMATTED_BOSS_NAMES
  {
  }
}
