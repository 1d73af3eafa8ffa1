/** The progression store: per-level progress, the furthest level reached, the running
    total score, and the ability unlocks those earn. The level list and the unlock table
    are parameters; values read back from local storage are passed in. */
module Progression {
  import opened Types

  /** `checkUnlocks` counts no achievements: the count is fixed at zero. */
  const ACHIEVEMENT_COUNT: int := 0

  // ---------------------------------------------------------------- unlock conditions

  /** An unlock condition holds for the given furthest level and total score. */
  predicate ConditionMet(c: UnlockCondition, maxLevelReached: int, totalScore: int)
    ensures c.kind == UnlockConditionType.AchievementCount ==>
              (ConditionMet(c, maxLevelReached, totalScore) <==> c.value <= 0)
  {
    match c.kind
    case Level => maxLevelReached >= c.value
    case AchievementCount => ACHIEVEMENT_COUNT >= c.value
    case TotalScore => totalScore >= c.value
  }

  /** The abilities the `forEach` of `checkUnlocks` collects over `unlocks`: each entry
      not yet in `unlocked` whose condition holds adds its ability. */
  function NewUnlocks(unlocks: seq<AbilityUnlock>, unlocked: set<AbilityId>, maxLevelReached: int,
                      totalScore: int): set<AbilityId>
  {
    if unlocks == [] then {}
    else
      var u := unlocks[|unlocks| - 1];
      NewUnlocks(unlocks[..|unlocks| - 1], unlocked, maxLevelReached, totalScore) +
      (if u.ability !in unlocked && ConditionMet(u.condition, maxLevelReached, totalScore) then {u.ability} else {})
  }

  /** An ability is newly unlocked exactly when it is not unlocked yet and some entry of the
      table for it has its condition met. */
  lemma {:induction false} NewUnlocksExactly(unlocks: seq<AbilityUnlock>, unlocked: set<AbilityId>,
                                             maxLevelReached: int, totalScore: int, a: AbilityId)
    ensures a in NewUnlocks(unlocks, unlocked, maxLevelReached, totalScore) <==>
              a !in unlocked &&
              exists k :: 0 <= k < |unlocks| && unlocks[k].ability == a &&
                          ConditionMet(unlocks[k].condition, maxLevelReached, totalScore)
    decreases |unlocks|
  {
    if unlocks != [] {
      var init := unlocks[..|unlocks| - 1];
      NewUnlocksExactly(init, unlocked, maxLevelReached, totalScore, a);
      if exists k :: 0 <= k < |unlocks| && unlocks[k].ability == a &&
                     ConditionMet(unlocks[k].condition, maxLevelReached, totalScore) {
        var k :| 0 <= k < |unlocks| && unlocks[k].ability == a &&
                 ConditionMet(unlocks[k].condition, maxLevelReached, totalScore);
        if k < |unlocks| - 1 {
          assert init[k] == unlocks[k];
        }
      }
      if exists k :: 0 <= k < |init| && init[k].ability == a &&
                     ConditionMet(init[k].condition, maxLevelReached, totalScore) {
        var k :| 0 <= k < |init| && init[k].ability == a &&
                 ConditionMet(init[k].condition, maxLevelReached, totalScore);
        assert unlocks[k] == init[k];
      }
    }
  }

  /** Nothing already unlocked is reported again. */
  lemma {:induction false} NewUnlocksAreNew(unlocks: seq<AbilityUnlock>, unlocked: set<AbilityId>,
                                            maxLevelReached: int, totalScore: int)
    ensures NewUnlocks(unlocks, unlocked, maxLevelReached, totalScore) !! unlocked
    decreases |unlocks|
  {
    if unlocks != [] {
      NewUnlocksAreNew(unlocks[..|unlocks| - 1], unlocked, maxLevelReached, totalScore);
    }
  }

  /** Once the new unlocks are added, the same check finds nothing more. */
  lemma {:induction false} NewUnlocksSettle(unlocks: seq<AbilityUnlock>, unlocked: set<AbilityId>,
                                            maxLevelReached: int, totalScore: int)
    ensures var added := unlocked + NewUnlocks(unlocks, unlocked, maxLevelReached, totalScore);
            NewUnlocks(unlocks, added, maxLevelReached, totalScore) == {}
    decreases |unlocks|
  {
    var added := unlocked + NewUnlocks(unlocks, unlocked, maxLevelReached, totalScore);
    forall a | a in NewUnlocks(unlocks, added, maxLevelReached, totalScore)
      ensures false
    {
      NewUnlocksExactly(unlocks, added, maxLevelReached, totalScore, a);
      NewUnlocksExactly(unlocks, unlocked, maxLevelReached, totalScore, a);
    }
  }

  // ---------------------------------------------------------------- level progress

  /** The progress entry after completing a level with `score` and `stars`. */
  function Completed(p: LevelProgress, score: int, stars: int): (q: LevelProgress)
    ensures q.completed && q.levelIndex == p.levelIndex && q.objectives == p.objectives
    ensures q.stars >= p.stars && q.stars >= stars && (q.stars == p.stars || q.stars == stars)
    ensures q.bestScore >= p.bestScore && q.bestScore >= score && (q.bestScore == p.bestScore || q.bestScore == score)
  {
    p.(completed := true,
       stars := if p.stars >= stars then p.stars else stars,
       bestScore := if p.bestScore >= score then p.bestScore else score)
  }

  /** Every entry of `before` is still in `after`, with no fewer stars, no lower best score,
      and still completed if it was. */
  ghost predicate NoProgressLost(before: map<int, LevelProgress>, after: map<int, LevelProgress>) {
    forall i :: i in before ==>
      i in after && after[i].stars >= before[i].stars && after[i].bestScore >= before[i].bestScore &&
      (before[i].completed ==> after[i].completed)
  }

  /** The fresh entry `initializeProgression` gives a level with no saved progress. */
  function FreshProgress(level: LevelDef): LevelProgress {
    LevelProgress(level.index, false, 0, 0, level.objectives)
  }

  /** The `forEach` of `initializeProgression`: each level whose index has no entry yet gets
      a fresh one; the first level with a given index wins. */
  function WithMissingLevels(m: map<int, LevelProgress>, levels: seq<LevelDef>): map<int, LevelProgress>
  {
    if levels == [] then m
    else
      var before := WithMissingLevels(m, levels[..|levels| - 1]);
      var level := levels[|levels| - 1];
      if level.index in before then before else before[level.index := FreshProgress(level)]
  }

  /** The fill never overwrites an entry that was already there. */
  lemma {:induction false} WithMissingLevelsKeeps(m: map<int, LevelProgress>, levels: seq<LevelDef>)
    ensures var r := WithMissingLevels(m, levels);
      forall i :: i in m ==> i in r && r[i] == m[i]
    decreases |levels|
  {
    if levels != [] {
      WithMissingLevelsKeeps(m, levels[..|levels| - 1]);
    }
  }

  /** After the fill every level's index has an entry. */
  lemma {:induction false} WithMissingLevelsCovers(m: map<int, LevelProgress>, levels: seq<LevelDef>)
    ensures forall k :: 0 <= k < |levels| ==> levels[k].index in WithMissingLevels(m, levels)
    decreases |levels|
  {
    if levels != [] {
      var init := levels[..|levels| - 1];
      var before := WithMissingLevels(m, init);
      var r := WithMissingLevels(m, levels);
      assert before.Keys <= r.Keys;
      WithMissingLevelsCovers(m, init);
      forall k | 0 <= k < |levels| - 1
        ensures levels[k].index in r
      {
        assert init[k] == levels[k];
        assert init[k].index in before;
      }
    }
  }

  /** The fill adds nothing else: a key that was missing holds the fresh entry of the first
      level with that index. */
  lemma {:induction false} WithMissingLevelsFirst(m: map<int, LevelProgress>, levels: seq<LevelDef>)
    ensures var r := WithMissingLevels(m, levels);
      forall i :: i in r && i !in m ==>
        exists k :: 0 <= k < |levels| && levels[k].index == i && r[i] == FreshProgress(levels[k]) &&
                    forall j :: 0 <= j < k ==> levels[j].index != i
    decreases |levels|
  {
    if levels != [] {
      var init := levels[..|levels| - 1];
      var before := WithMissingLevels(m, init);
      var level := levels[|levels| - 1];
      var r := WithMissingLevels(m, levels);
      WithMissingLevelsFirst(m, init);
      WithMissingLevelsCovers(m, init);
      forall i | i in r && i !in m
        ensures exists k :: 0 <= k < |levels| && levels[k].index == i && r[i] == FreshProgress(levels[k]) &&
                            forall j :: 0 <= j < k ==> levels[j].index != i
      {
        if i in before {
          var k :| 0 <= k < |init| && init[k].index == i && before[i] == FreshProgress(init[k]) &&
                   forall j :: 0 <= j < k ==> init[j].index != i;
          assert levels[k] == init[k];
          assert forall j :: 0 <= j < k ==> levels[j] == init[j];
        } else {
          assert i == level.index;
          forall j | 0 <= j < |levels| - 1
            ensures levels[j].index != i
          {
            assert init[j] == levels[j];
          }
        }
      }
    }
  }

  // ---------------------------------------------------------------- the store

  class ProgressionStore {
    var currentLevel: int
    var maxLevelReached: int
    var levelProgress: map<int, LevelProgress>
    var unlockedAbilities: set<AbilityId>
    var totalScore: int
    /** `ABILITY_UNLOCKS`, fixed for the store's lifetime. */
    const abilityUnlocks: seq<AbilityUnlock>

    /** The store's initial state: level 0, no progress, nothing unlocked, and the furthest
        level and total score read back from storage (0 when nothing was saved). */
    constructor(unlocks: seq<AbilityUnlock>, savedMaxLevel: int, savedTotalScore: int)
      ensures abilityUnlocks == unlocks
      ensures currentLevel == 0 && maxLevelReached == savedMaxLevel && totalScore == savedTotalScore
      ensures levelProgress == map[] && unlockedAbilities == {}
    {
      abilityUnlocks := unlocks;
      currentLevel := 0;
      maxLevelReached := savedMaxLevel;
      levelProgress := map[];
      unlockedAbilities := {};
      totalScore := savedTotalScore;
    }

    /** `checkUnlocks`: walks the unlock table and returns the abilities not yet unlocked
        whose condition holds now; they are added to the unlocked set and nothing else
        changes. */
    method CheckUnlocks() returns (newUnlocks: set<AbilityId>)
      modifies this
      ensures newUnlocks == NewUnlocks(abilityUnlocks, old(unlockedAbilities), maxLevelReached, totalScore)
      ensures unlockedAbilities == old(unlockedAbilities) + newUnlocks
      ensures currentLevel == old(currentLevel) && maxLevelReached == old(maxLevelReached)
      ensures levelProgress == old(levelProgress) && totalScore == old(totalScore)
    {
      newUnlocks := {};
      var i := 0;
      while i < |abilityUnlocks|
        invariant 0 <= i <= |abilityUnlocks|
        invariant newUnlocks == NewUnlocks(abilityUnlocks[..i], unlockedAbilities, maxLevelReached, totalScore)
      {
        var unlock := abilityUnlocks[i];
        if unlock.ability !in unlockedAbilities {
          var shouldUnlock := false;
          match unlock.condition.kind {
            case Level => shouldUnlock := maxLevelReached >= unlock.condition.value;
            case AchievementCount => shouldUnlock := ACHIEVEMENT_COUNT >= unlock.condition.value;
            case TotalScore => shouldUnlock := totalScore >= unlock.condition.value;
          }
          if shouldUnlock {
            newUnlocks := newUnlocks + {unlock.ability};
          }
        }
        assert abilityUnlocks[..i + 1][..i] == abilityUnlocks[..i];
        i := i + 1;
      }
      assert abilityUnlocks[..i] == abilityUnlocks;
      if |newUnlocks| > 0 {
        unlockedAbilities := unlockedAbilities + newUnlocks;
      }
    }

    /** `initializeProgression`: restores the saved furthest level and total score, fills
        in a fresh entry for every level missing from the saved progress (the parsed map,
        empty when nothing was saved or it did not parse), then checks for unlocks. */
    method InitializeProgression(levels: seq<LevelDef>, savedMaxLevel: int, savedTotalScore: int,
                                 savedProgress: map<int, LevelProgress>)
      modifies this
      ensures maxLevelReached == savedMaxLevel && totalScore == savedTotalScore
      ensures levelProgress == WithMissingLevels(savedProgress, levels)
      ensures unlockedAbilities ==
                old(unlockedAbilities) + NewUnlocks(abilityUnlocks, old(unlockedAbilities), savedMaxLevel, savedTotalScore)
      ensures currentLevel == old(currentLevel)
    {
      var progressMap := savedProgress;
      var i := 0;
      while i < |levels|
        invariant 0 <= i <= |levels|
        invariant progressMap == WithMissingLevels(savedProgress, levels[..i])
      {
        var level := levels[i];
        if level.index !in progressMap {
          progressMap := progressMap[level.index := FreshProgress(level)];
        }
        assert levels[..i + 1][..i] == levels[..i];
        i := i + 1;
      }
      assert levels[..i] == levels;
      maxLevelReached := savedMaxLevel;
      totalScore := savedTotalScore;
      levelProgress := progressMap;
      var _ := CheckUnlocks();
    }

    /** `completeLevel`: nothing for a level with no progress entry; otherwise the entry is
        completed with the better stars and best score, the furthest level reached becomes
        at least the next level, and unlocks are checked against the new furthest level. */
    method CompleteLevel(levelIndex: int, score: int, stars: int)
      modifies this
      ensures levelIndex !in old(levelProgress) ==>
                levelProgress == old(levelProgress) && maxLevelReached == old(maxLevelReached) &&
                unlockedAbilities == old(unlockedAbilities)
      ensures levelIndex in old(levelProgress) ==>
                levelProgress == old(levelProgress)[levelIndex := Completed(old(levelProgress)[levelIndex], score, stars)] &&
                maxLevelReached == (if old(maxLevelReached) >= levelIndex + 1 then old(maxLevelReached) else levelIndex + 1) &&
                unlockedAbilities ==
                  old(unlockedAbilities) + NewUnlocks(abilityUnlocks, old(unlockedAbilities), maxLevelReached, totalScore)
      ensures NoProgressLost(old(levelProgress), levelProgress)
      ensures maxLevelReached >= old(maxLevelReached)
      ensures levelIndex in old(levelProgress) ==> IsLevelUnlocked(levelIndex + 1)
      ensures currentLevel == old(currentLevel) && totalScore == old(totalScore)
    {
      if levelIndex !in levelProgress {
        return;
      }
      var progress := levelProgress[levelIndex];
      var updated := Completed(progress, score, stars);
      levelProgress := levelProgress[levelIndex := updated];
      maxLevelReached := if maxLevelReached >= levelIndex + 1 then maxLevelReached else levelIndex + 1;
      var _ := CheckUnlocks();
    }

    /** `unlockNextLevel`: moves the current level on by one. */
    method UnlockNextLevel()
      modifies this
      ensures currentLevel == old(currentLevel) + 1
      ensures maxLevelReached == old(maxLevelReached) && levelProgress == old(levelProgress)
      ensures unlockedAbilities == old(unlockedAbilities) && totalScore == old(totalScore)
    {
      currentLevel := currentLevel + 1;
    }

    /** `updateObjectiveProgress`: replaces the objectives of one level's entry, keeping the
        rest of it and every other entry; nothing for a level with no entry. */
    method UpdateObjectiveProgress(levelIndex: int, objectives: seq<LevelObjective>)
      modifies this
      ensures levelIndex !in old(levelProgress) ==> levelProgress == old(levelProgress)
      ensures levelIndex in old(levelProgress) ==>
                levelProgress == old(levelProgress)[levelIndex := old(levelProgress)[levelIndex].(objectives := objectives)]
      ensures NoProgressLost(old(levelProgress), levelProgress)
      ensures currentLevel == old(currentLevel) && maxLevelReached == old(maxLevelReached)
      ensures unlockedAbilities == old(unlockedAbilities) && totalScore == old(totalScore)
    {
      if levelIndex !in levelProgress {
        return;
      }
      levelProgress := levelProgress[levelIndex := levelProgress[levelIndex].(objectives := objectives)];
    }

    /** `addToTotalScore`: adds a game's score to the running total, then checks unlocks
        against the new total. */
    method AddToTotalScore(score: int)
      modifies this
      ensures totalScore == old(totalScore) + score
      ensures unlockedAbilities ==
                old(unlockedAbilities) + NewUnlocks(abilityUnlocks, old(unlockedAbilities), maxLevelReached, totalScore)
      ensures currentLevel == old(currentLevel) && maxLevelReached == old(maxLevelReached)
      ensures levelProgress == old(levelProgress)
    {
      totalScore := totalScore + score;
      var _ := CheckUnlocks();
    }

    /** `isLevelUnlocked`: a level is open once the furthest level reached is at or past it. */
    predicate IsLevelUnlocked(levelIndex: int)
      reads this
    {
      levelIndex <= maxLevelReached
    }
  }
}
