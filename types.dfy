/** The records of app/types.ts. */
module Types {
  import opened Wrappers

  /** A roster entry as the roster scrape builds it (the nine fields it fills). */
  datatype Player = Player(
    id: string,
    name: string,
    profileUrl: string,
    team: string,
    league: string,
    nationality: string,
    age: string,
    height: string,
    position: string)

  datatype CareerEntry = CareerEntry(year: string, team: string, league: string)

  /** One game of a player's game log; every statistic is kept as text. */
  datatype GameLog = GameLog(
    date: string,
    team: string,
    opponent: string,
    result: string,
    boxScoreUrl: Option<string>,
    min: string,
    pts: string,
    fgp2: string,
    fgp3: string,
    ft: string,
    rebOff: string,
    rebDef: string,
    rebTotal: string,
    ast: string,
    pf: string,
    blk: string,
    stl: string,
    to: string,
    rank: string)

  /** Season totals for one team. */
  datatype SummaryStats = SummaryStats(
    team: string,
    games: string,
    min: string,
    pts: string,
    fgp2: string,
    fgp3: string,
    ft: string,
    rebOff: string,
    rebDef: string,
    rebTotal: string,
    ast: string,
    pf: string,
    blk: string,
    stl: string,
    to: string,
    rank: string)

  /** Season averages for one team. */
  datatype AverageStats = AverageStats(
    team: string,
    games: string,
    min: string,
    pts: string,
    fgp2Pct: string,
    fgp3Pct: string,
    ftPct: string,
    rebOff: string,
    rebDef: string,
    rebTotal: string,
    ast: string,
    pf: string,
    blk: string,
    stl: string,
    to: string,
    rank: string)

  /** A player's figure, the team's figure and the player's share. */
  datatype StatTriple = StatTriple(value: real, team: real, percentage: real)

  datatype ShotSplit = ShotSplit(made: StatTriple, attempted: StatTriple)

  datatype AdvancedStats = AdvancedStats(
    points: StatTriple,
    twoPointFG: ShotSplit,
    threePointFG: ShotSplit,
    freeThrows: ShotSplit,
    assists: StatTriple)

  /** The `Partial<Player>` a detail scrape returns: the identifier is always
      set, every other field only when its section produced it. */
  datatype PlayerDetails = PlayerDetails(
    id: string,
    name: Option<string>,
    position: Option<string>,
    height: Option<string>,
    age: Option<string>,
    nationality: Option<string>,
    imageUrl: Option<string>,
    careerHistory: Option<seq<CareerEntry>>,
    gameLogs: Option<seq<GameLog>>,
    summaryStats: Option<seq<SummaryStats>>,
    averageStats: Option<seq<AverageStats>>,
    advancedStats: Option<AdvancedStats>)
}
