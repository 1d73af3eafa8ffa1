/** The player-profile store: the profile's lifetime statistics, their updates, the
    integer statistics derived from them, and the profile's save to and load from local
    storage. Local storage is a field of the store; `Date.now()` is a parameter. */
module Profile {
  import opened Types
  import opened JsCollections

  /** The lifetime counters. `skillUses` is a `Map` from skill to count, kept as its
      entries in insertion order. */
  datatype PlayerStats = PlayerStats(
    gamesPlayed: int, blocksPlaced: int, linesCleared: int, totalScore: int,
    bombsExploded: int, iceBroken: int, highestCombo: int, longestSession: int,
    totalPlaytime: int, skillUses: seq<(ActiveAbilityType, int)>)

  /** `INITIAL_STATS`: every counter zero, no skill used. */
  const INITIAL_STATS: PlayerStats := PlayerStats(0, 0, 0, 0, 0, 0, 0, 0, 0, [])

  /** A key of `PlayerStats`. */
  datatype StatKey = GamesPlayed | BlocksPlaced | LinesCleared | TotalScore | BombsExploded
                   | IceBroken | HighestCombo | LongestSession | TotalPlaytime | SkillUses

  /** A `Partial<PlayerStats>`: `None` for a key the update does not mention. */
  datatype StatUpdates = StatUpdates(
    gamesPlayed: Option<int>, blocksPlaced: Option<int>, linesCleared: Option<int>,
    totalScore: Option<int>, bombsExploded: Option<int>, iceBroken: Option<int>,
    highestCombo: Option<int>, longestSession: Option<int>, totalPlaytime: Option<int>,
    skillUses: Option<seq<(ActiveAbilityType, int)>>)

  /** The profile's copy of the progression record. */
  datatype ProgressionState = ProgressionState(currentLevel: int, maxLevelReached: int,
                                               levelProgress: map<int, LevelProgress>,
                                               unlockedAbilities: set<AbilityId>, totalScore: int)

  /** A player profile; `unlockedAbilities` is a `Set` and `achievements` a `Map`, both kept
      in insertion order. */
  datatype PlayerProfile = PlayerProfile(
    username: string, createdAt: int, lastPlayed: int, stats: PlayerStats,
    progression: ProgressionState, unlockedAbilities: seq<AbilityId>,
    equippedPassives: seq<PassiveAbilityType>, achievements: seq<(string, Achievement)>)

  /** What `JSON.stringify` keeps of the progression record: a `Map` or `Set` inside it has
      no enumerable properties and is written as an empty object. */
  datatype SavedProgression = SavedProgression(currentLevel: int, maxLevelReached: int, totalScore: int)

  /** The stored profile, as parsed back: the three collections the save converts are
      entry arrays. */
  datatype SavedProfile = SavedProfile(
    username: string, createdAt: int, lastPlayed: int, stats: PlayerStats,
    progression: SavedProgression, unlockedAbilities: seq<AbilityId>,
    equippedPassives: seq<PassiveAbilityType>, achievements: seq<(string, Achievement)>)

  // ---------------------------------------------------------------- counters

  /** `stats[key]` when it is a number; `skillUses` is a `Map`, not a number. */
  function StatValue(s: PlayerStats, key: StatKey): Option<int> {
    match key
    case GamesPlayed => Some(s.gamesPlayed)
    case BlocksPlaced => Some(s.blocksPlaced)
    case LinesCleared => Some(s.linesCleared)
    case TotalScore => Some(s.totalScore)
    case BombsExploded => Some(s.bombsExploded)
    case IceBroken => Some(s.iceBroken)
    case HighestCombo => Some(s.highestCombo)
    case LongestSession => Some(s.longestSession)
    case TotalPlaytime => Some(s.totalPlaytime)
    case SkillUses => None
  }

  /** The stats with one numeric counter raised by `amount` (`{ ...stats, [key]: v + amount }`);
      for `skillUses` the stats are returned unchanged. */
  function Incremented(s: PlayerStats, key: StatKey, amount: int): (r: PlayerStats)
    ensures StatValue(s, key).Some? ==> StatValue(r, key) == Some(StatValue(s, key).value + amount)
    ensures StatValue(s, key).None? ==> r == s
    ensures forall other :: other != key ==> StatValue(r, other) == StatValue(s, other)
    ensures r.skillUses == s.skillUses
  {
    match key
    case GamesPlayed => s.(gamesPlayed := s.gamesPlayed + amount)
    case BlocksPlaced => s.(blocksPlaced := s.blocksPlaced + amount)
    case LinesCleared => s.(linesCleared := s.linesCleared + amount)
    case TotalScore => s.(totalScore := s.totalScore + amount)
    case BombsExploded => s.(bombsExploded := s.bombsExploded + amount)
    case IceBroken => s.(iceBroken := s.iceBroken + amount)
    case HighestCombo => s.(highestCombo := s.highestCombo + amount)
    case LongestSession => s.(longestSession := s.longestSession + amount)
    case TotalPlaytime => s.(totalPlaytime := s.totalPlaytime + amount)
    case SkillUses => s
  }

  /** A value given for a key, or the one already there. */
  function Override<T>(update: Option<T>, current: T): T {
    if update.Some? then update.value else current
  }

  /** The number the update gives for a numeric key, if it mentions it. */
  function Mention(u: StatUpdates, key: StatKey): Option<int> {
    match key
    case GamesPlayed => u.gamesPlayed
    case BlocksPlaced => u.blocksPlaced
    case LinesCleared => u.linesCleared
    case TotalScore => u.totalScore
    case BombsExploded => u.bombsExploded
    case IceBroken => u.iceBroken
    case HighestCombo => u.highestCombo
    case LongestSession => u.longestSession
    case TotalPlaytime => u.totalPlaytime
    case SkillUses => None
  }

  /** `{ ...stats, ...updates }`: each key the update mentions takes its value, every other
      key keeps its own. */
  function Updated(s: PlayerStats, u: StatUpdates): (r: PlayerStats)
    ensures forall key :: StatValue(r, key) == if Mention(u, key).Some? then Mention(u, key) else StatValue(s, key)
    ensures r.skillUses == if u.skillUses.Some? then u.skillUses.value else s.skillUses
    ensures u == StatUpdates(None, None, None, None, None, None, None, None, None, None) ==> r == s
  {
    PlayerStats(
      Override(u.gamesPlayed, s.gamesPlayed), Override(u.blocksPlaced, s.blocksPlaced),
      Override(u.linesCleared, s.linesCleared), Override(u.totalScore, s.totalScore),
      Override(u.bombsExploded, s.bombsExploded), Override(u.iceBroken, s.iceBroken),
      Override(u.highestCombo, s.highestCombo), Override(u.longestSession, s.longestSession),
      Override(u.totalPlaytime, s.totalPlaytime), Override(u.skillUses, s.skillUses))
  }

  /** The skill-use map with one more use of `skill` (`(get(skill) || 0) + 1`). */
  function WithSkillUse(uses: seq<(ActiveAbilityType, int)>, skill: ActiveAbilityType): seq<(ActiveAbilityType, int)>
  {
    var current := Get(uses, skill);
    Put(uses, skill, (if current.Some? then current.value else 0) + 1)
  }

  /** One more use raises that skill's count by one (from 0 when absent) and leaves every
      other skill's count alone. */
  lemma SkillUseCounts(uses: seq<(ActiveAbilityType, int)>, skill: ActiveAbilityType)
    requires DistinctKeys(uses)
    ensures DistinctKeys(WithSkillUse(uses, skill))
    ensures Get(WithSkillUse(uses, skill), skill) ==
              Some(if Get(uses, skill).Some? then Get(uses, skill).value + 1 else 1)
    ensures forall other :: other != skill ==> Get(WithSkillUse(uses, skill), other) == Get(uses, other)
  {
    var current := Get(uses, skill);
    var next := (if current.Some? then current.value else 0) + 1;
    var r := Put(uses, skill, next);
    assert WithSkillUse(uses, skill) == r;
    PutKeys(uses, skill, next);
    PutGet(uses, skill, next);
    assert Get(r, skill) == Some(next);
  }

  /** The stats after a session of the given length: the total grows by it and the longest
      session is the longer of the two. */
  function WithSession(s: PlayerStats, sessionDuration: int): (r: PlayerStats)
    ensures r.totalPlaytime == s.totalPlaytime + sessionDuration
    ensures r.longestSession >= s.longestSession && r.longestSession >= sessionDuration
    ensures r.longestSession == s.longestSession || r.longestSession == sessionDuration
    ensures r == s.(totalPlaytime := r.totalPlaytime, longestSession := r.longestSession)
  {
    s.(totalPlaytime := s.totalPlaytime + sessionDuration,
       longestSession := if s.longestSession >= sessionDuration then s.longestSession else sessionDuration)
  }

  // ---------------------------------------------------------------- derived statistics

  const MS_PER_HOUR: int := 3600000
  const MS_PER_MINUTE: int := 60000

  /** JavaScript's `%`: the remainder takes the sign of the dividend. */
  function JsRem(a: int, b: int): (r: int)
    requires b > 0
    ensures a >= 0 ==> 0 <= r < b
    ensures a < 0 ==> -b < r <= 0
  {
    if a >= 0 then a % b else -((-a) % b)
  }

  /** The integer part of `calculateDerivedStats`. */
  datatype DerivedStats = DerivedStats(averageScore: int, playtimeHours: int, playtimeMinutes: int)

  /** `Math.floor(totalScore / gamesPlayed)` when a game was played, else 0;
      `Math.floor(t / 3600000)` and `Math.floor((t % 3600000) / 60000)` for the play time. */
  function Derived(s: PlayerStats): (d: DerivedStats)
    ensures s.gamesPlayed <= 0 ==> d.averageScore == 0
    ensures s.gamesPlayed > 0 ==>
              d.averageScore * s.gamesPlayed <= s.totalScore < (d.averageScore + 1) * s.gamesPlayed
    ensures d.playtimeHours * MS_PER_HOUR <= s.totalPlaytime < (d.playtimeHours + 1) * MS_PER_HOUR
    ensures s.totalPlaytime >= 0 ==>
              0 <= d.playtimeMinutes <= 59 &&
              d.playtimeHours * MS_PER_HOUR + d.playtimeMinutes * MS_PER_MINUTE <= s.totalPlaytime <
              d.playtimeHours * MS_PER_HOUR + (d.playtimeMinutes + 1) * MS_PER_MINUTE
    ensures s.totalPlaytime < 0 ==> -60 <= d.playtimeMinutes <= 0
  {
    var avg := if s.gamesPlayed > 0 then s.totalScore / s.gamesPlayed else 0;
    DerivedStats(avg, s.totalPlaytime / MS_PER_HOUR, JsRem(s.totalPlaytime, MS_PER_HOUR) / MS_PER_MINUTE)
  }

  /** What `calculateDerivedStats` reports with no profile. */
  const NO_DERIVED_STATS: DerivedStats := DerivedStats(0, 0, 0)

  // ---------------------------------------------------------------- saving and loading

  /** The collections kept once each, as a `Map` or `Set` holds them. */
  predicate WellFormedProfile(p: PlayerProfile) {
    DistinctKeys(p.stats.skillUses) && DistinctKeys(p.achievements) && Distinct(p.unlockedAbilities)
  }

  /** `saveProfile`'s serialized form: `skillUses` and `achievements` as entry arrays,
      `unlockedAbilities` as an array; the progression's own `Map` and `Set` are lost. */
  function Serialize(p: PlayerProfile): SavedProfile {
    SavedProfile(p.username, p.createdAt, p.lastPlayed, p.stats,
                 SavedProgression(p.progression.currentLevel, p.progression.maxLevelReached, p.progression.totalScore),
                 p.unlockedAbilities, p.equippedPassives, p.achievements)
  }

  /** `initializeProfile`'s load: the entry arrays made a `Map` and a `Set` again; the
      progression's collections come back empty. */
  function Deserialize(s: SavedProfile): (p: PlayerProfile)
    ensures WellFormedProfile(p)
    ensures p.progression.levelProgress == map[] && p.progression.unlockedAbilities == {}
  {
    MapOfDistinct(s.stats.skillUses);
    MapOfDistinct(s.achievements);
    SetOfDistinct(s.unlockedAbilities);
    PlayerProfile(s.username, s.createdAt, s.lastPlayed, s.stats.(skillUses := MapOf(s.stats.skillUses)),
                  ProgressionState(s.progression.currentLevel, s.progression.maxLevelReached, map[], {},
                                   s.progression.totalScore),
                  SetOf(s.unlockedAbilities), s.equippedPassives, MapOf(s.achievements))
  }

  /** Loading what was saved gives the profile back, provided its progression record holds
      no level progress and no unlocks (which the save cannot keep). */
  lemma {:induction false} SaveLoadRoundTrip(p: PlayerProfile)
    requires WellFormedProfile(p)
    requires p.progression.levelProgress == map[] && p.progression.unlockedAbilities == {}
    ensures Deserialize(Serialize(p)) == p
  {
    MapOfEntries(p.stats.skillUses);
    MapOfEntries(p.achievements);
    SetOfItems(p.unlockedAbilities);
  }

  /** A profile whose progression record holds level progress does not survive the save. */
  lemma SaveDropsLevelProgress(p: PlayerProfile)
    requires p.progression.levelProgress != map[]
    ensures Deserialize(Serialize(p)) != p
  {
  }

  /** The profile `initializeProfile` creates when nothing is stored. */
  function NewProfile(username: string, now: int): (p: PlayerProfile)
    ensures WellFormedProfile(p) && p.stats == INITIAL_STATS
    ensures p.createdAt == now && p.lastPlayed == now
    ensures p.progression == ProgressionState(0, 0, map[], {}, 0)
  {
    PlayerProfile(username, now, now, INITIAL_STATS, ProgressionState(0, 0, map[], {}, 0), [], [], [])
  }

  // ---------------------------------------------------------------- the store

  class ProfileStore {
    /** The loaded profile, or none before `initializeProfile`. */
    var profile: Option<PlayerProfile>
    /** The `flux_player_profile` entry of local storage, as parsed back; none when it is
        missing or does not parse. */
    var stored: Option<SavedProfile>

    /** A loaded profile holds each collection entry once and nothing the save would drop. */
    predicate Valid()
      reads this
    {
      profile.Some? ==>
        WellFormedProfile(profile.value) &&
        profile.value.progression.levelProgress == map[] && profile.value.progression.unlockedAbilities == {}
    }

    /** No profile yet; local storage as found. */
    constructor(storage: Option<SavedProfile>)
      ensures Valid() && profile == None && stored == storage
    {
      profile := None;
      stored := storage;
    }

    /** `saveProfile`: writes the serialized profile, if there is one. */
    method SaveProfile()
      modifies this
      ensures profile == old(profile)
      ensures stored == if profile.Some? then Some(Serialize(profile.value)) else old(stored)
    {
      if profile.Some? {
        stored := Some(Serialize(profile.value));
      }
    }

    /** `initializeProfile`: loads the stored profile when there is one; otherwise creates a
        fresh profile for `username` and saves it. */
    method InitializeProfile(username: string, now: int)
      requires Valid()
      modifies this
      ensures Valid()
      ensures old(stored).Some? ==> profile == Some(Deserialize(old(stored).value)) && stored == old(stored)
      ensures old(stored).None? ==>
                profile == Some(NewProfile(username, now)) && stored == Some(Serialize(NewProfile(username, now)))
    {
      if stored.Some? {
        profile := Some(Deserialize(stored.value));
        return;
      }
      profile := Some(NewProfile(username, now));
      SaveProfile();
    }

    /** `updateStats`: the given stats override the profile's, `lastPlayed` becomes now,
        and the profile is saved; nothing without a profile. A `skillUses` given is a `Map`,
        so it holds each skill once. */
    method UpdateStats(updates: StatUpdates, now: int)
      requires Valid() && (updates.skillUses.Some? ==> DistinctKeys(updates.skillUses.value))
      modifies this
      ensures Valid()
      ensures old(profile).None? ==> profile == old(profile) && stored == old(stored)
      ensures old(profile).Some? ==>
                profile == Some(old(profile).value.(stats := Updated(old(profile).value.stats, updates), lastPlayed := now)) &&
                stored == Some(Serialize(profile.value))
    {
      if profile.None? {
        return;
      }
      var p := profile.value;
      profile := Some(p.(stats := Updated(p.stats, updates), lastPlayed := now));
      SaveProfile();
    }

    /** `incrementStat`: adds `amount` to a numeric counter, stamps `lastPlayed` and saves;
        nothing without a profile or for `skillUses`, which is not a number. */
    method IncrementStat(stat: StatKey, amount: int, now: int)
      requires Valid()
      modifies this
      ensures Valid()
      ensures old(profile).None? || StatValue(old(profile).value.stats, stat).None? ==>
                profile == old(profile) && stored == old(stored)
      ensures old(profile).Some? && StatValue(old(profile).value.stats, stat).Some? ==>
                profile == Some(old(profile).value.(stats := Incremented(old(profile).value.stats, stat, amount),
                                                     lastPlayed := now)) &&
                stored == Some(Serialize(profile.value))
    {
      if profile.None? {
        return;
      }
      var p := profile.value;
      var currentValue := StatValue(p.stats, stat);
      if currentValue.Some? {
        profile := Some(p.(stats := Incremented(p.stats, stat, amount), lastPlayed := now));
        SaveProfile();
      }
    }

    /** `incrementSkillUse`: one more use of `skill`, `lastPlayed` stamped, profile saved;
        nothing without a profile. */
    method IncrementSkillUse(skill: ActiveAbilityType, now: int)
      requires Valid()
      modifies this
      ensures Valid()
      ensures old(profile).None? ==> profile == old(profile) && stored == old(stored)
      ensures old(profile).Some? ==>
                var s := old(profile).value.stats;
                profile == Some(old(profile).value.(stats := s.(skillUses := WithSkillUse(s.skillUses, skill)),
                                                     lastPlayed := now)) &&
                stored == Some(Serialize(profile.value))
    {
      if profile.None? {
        return;
      }
      var p := profile.value;
      SkillUseCounts(p.stats.skillUses, skill);
      var skillUses := WithSkillUse(p.stats.skillUses, skill);
      profile := Some(p.(stats := p.stats.(skillUses := skillUses), lastPlayed := now));
      SaveProfile();
    }

    /** `updatePlaytime`: adds a session to the play time and keeps the longest session,
        stamps `lastPlayed` and saves; nothing without a profile. */
    method UpdatePlaytime(sessionDuration: int, now: int)
      requires Valid()
      modifies this
      ensures Valid()
      ensures old(profile).None? ==> profile == old(profile) && stored == old(stored)
      ensures old(profile).Some? ==>
                profile == Some(old(profile).value.(stats := WithSession(old(profile).value.stats, sessionDuration),
                                                     lastPlayed := now)) &&
                stored == Some(Serialize(profile.value))
    {
      if profile.None? {
        return;
      }
      var p := profile.value;
      profile := Some(p.(stats := WithSession(p.stats, sessionDuration), lastPlayed := now));
      SaveProfile();
    }

    /** The integer part of `calculateDerivedStats`: zeros without a profile. */
    function CalculateDerivedStats(): (d: DerivedStats)
      reads this
      ensures profile.None? ==> d == NO_DERIVED_STATS
      ensures profile.Some? ==> d == Derived(profile.value.stats)
    {
      if profile.None? then NO_DERIVED_STATS else Derived(profile.value.stats)
    }
  }
}
