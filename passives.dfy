/** The passive-ability store: five passive abilities, three equip slots, and the effect
    lookups the game reads from the equipped ones. */
module Passives {
  import opened Types

  /** Number of equip slots (`maxEquipped`). */
  const MAX_EQUIPPED: nat := 3

  /** The store's two fields as one value: the ability table and the slots. */
  datatype PassiveState = PassiveState(abilities: map<PassiveAbilityType, PassiveAbility>,
                                       slots: seq<Option<PassiveAbilityType>>)

  /** Each ability is filed under its own type. */
  predicate Keyed(abilities: map<PassiveAbilityType, PassiveAbility>) {
    forall t :: t in abilities ==> abilities[t].kind == t
  }

  /** The slot invariant: three slots; a type occupies a slot exactly when its ability is
      marked equipped, and no type occupies two slots. */
  predicate Consistent(s: PassiveState) {
    |s.slots| == MAX_EQUIPPED && Keyed(s.abilities) &&
    (forall i :: 0 <= i < |s.slots| && s.slots[i].Some? ==>
       s.slots[i].value in s.abilities && s.abilities[s.slots[i].value].equipped) &&
    (forall t :: t in s.abilities && s.abilities[t].equipped ==> Some(t) in s.slots) &&
    (forall i, j :: 0 <= i < j < |s.slots| && s.slots[i].Some? ==> s.slots[i] != s.slots[j])
  }

  /** `findIndex(slot => slot === x)`: the first index holding x, or -1. */
  function IndexOf(slots: seq<Option<PassiveAbilityType>>, x: Option<PassiveAbilityType>): (i: int)
    ensures -1 <= i < |slots|
    ensures i == -1 <==> x !in slots
    ensures i >= 0 ==> slots[i] == x && forall j :: 0 <= j < i ==> slots[j] != x
  {
    if slots == [] then -1
    else if slots[0] == x then 0
    else var k := IndexOf(slots[1..], x); if k == -1 then -1 else k + 1
  }

  /** The effects `initializePassives` gives each ability. */
  function DefaultEffect(t: PassiveAbilityType): PassiveEffect {
    match t
    case FluxBoost => PassiveEffect(Some(1.25), None, None, None)
    case ScoreMultiplier => PassiveEffect(Some(1.5), None, None, None)
    case LuckyPieces => PassiveEffect(None, None, Some(0.4), None)
    case ComboMaster => PassiveEffect(None, Some(3000.0), None, None)
    case IceBreaker => PassiveEffect(None, None, None, Some(-1.0))
  }

  /** `initializePassives`' table: all five abilities, locked and unequipped. */
  function DefaultPassives(): (m: map<PassiveAbilityType, PassiveAbility>)
    ensures Keyed(m)
    ensures forall t :: t in m && m[t] == PassiveAbility(t, false, false, DefaultEffect(t))
  {
    map t: PassiveAbilityType | true :: PassiveAbility(t, false, false, DefaultEffect(t))
  }

  /** `equipPassive`: fails and changes nothing when the ability is unknown, locked or
      already equipped, or when every slot is taken; otherwise marks it equipped and puts
      it in the first empty slot. */
  function Equip(s: PassiveState, t: PassiveAbilityType): (r: (bool, PassiveState))
    ensures r.0 <==> t in s.abilities && s.abilities[t].unlocked && !s.abilities[t].equipped && None in s.slots
    ensures !r.0 ==> r.1 == s
    ensures r.0 ==> var i := IndexOf(s.slots, None);
              r.1 == PassiveState(s.abilities[t := s.abilities[t].(equipped := true)], s.slots[i := Some(t)])
  {
    if t !in s.abilities || !s.abilities[t].unlocked || s.abilities[t].equipped then (false, s)
    else
      var i := IndexOf(s.slots, None);
      if i == -1 then (false, s)
      else (true, PassiveState(s.abilities[t := s.abilities[t].(equipped := true)], s.slots[i := Some(t)]))
  }

  /** `unequipPassive`: nothing for an unknown or unequipped ability; otherwise empties the
      slot that holds it (if any) and clears its equipped mark. */
  function Unequip(s: PassiveState, t: PassiveAbilityType): (r: PassiveState)
    ensures |r.slots| == |s.slots| && r.abilities.Keys == s.abilities.Keys
    ensures t in s.abilities ==> r.abilities[t] == s.abilities[t].(equipped := false)
    ensures forall u :: u in s.abilities && u != t ==> r.abilities[u] == s.abilities[u]
    ensures forall i :: 0 <= i < |s.slots| && s.slots[i] != Some(t) ==> r.slots[i] == s.slots[i]
  {
    if t !in s.abilities || !s.abilities[t].equipped then s
    else
      var i := IndexOf(s.slots, Some(t));
      var slots := if i != -1 then s.slots[i := None] else s.slots;
      PassiveState(s.abilities[t := s.abilities[t].(equipped := false)], slots)
  }

  /** `unlockPassive`: marks a known ability unlocked; an unknown type changes nothing. */
  function Unlock(s: PassiveState, t: PassiveAbilityType): (r: PassiveState)
    ensures r.slots == s.slots && r.abilities.Keys == s.abilities.Keys
    ensures t in s.abilities ==> r.abilities == s.abilities[t := s.abilities[t].(unlocked := true)]
    ensures t !in s.abilities ==> r == s
  {
    if t !in s.abilities then s
    else PassiveState(s.abilities[t := s.abilities[t].(unlocked := true)], s.slots)
  }

  /** Equipping keeps the slot invariant. */
  lemma EquipKeepsConsistent(s: PassiveState, t: PassiveAbilityType)
    requires Consistent(s)
    ensures Consistent(Equip(s, t).1)
  {
    var (ok, r) := Equip(s, t);
    if ok {
      var i := IndexOf(s.slots, None);
      assert Some(t) !in s.slots;
      forall u | u in r.abilities && r.abilities[u].equipped
        ensures Some(u) in r.slots
      {
        if u != t {
          var j :| 0 <= j < |s.slots| && s.slots[j] == Some(u);
          assert r.slots[j] == Some(u);
        } else {
          assert r.slots[i] == Some(t);
        }
      }
    }
  }

  /** Two different slots of a consistent store never hold the same type. */
  lemma SlotsDistinct(s: PassiveState, i: int, j: int)
    requires Consistent(s) && 0 <= i < |s.slots| && 0 <= j < |s.slots| && i != j && s.slots[i].Some?
    ensures s.slots[j] != s.slots[i]
  {
    if j < i {
      assert s.slots[j].Some? ==> s.slots[j] != s.slots[i];
    }
  }

  /** Unequipping keeps the slot invariant and leaves the ability in no slot. */
  lemma UnequipKeepsConsistent(s: PassiveState, t: PassiveAbilityType)
    requires Consistent(s)
    ensures Consistent(Unequip(s, t)) && Some(t) !in Unequip(s, t).slots
  {
    var r := Unequip(s, t);
    if t in s.abilities && s.abilities[t].equipped {
      var i := IndexOf(s.slots, Some(t));
      assert i != -1;
      forall j | 0 <= j < |r.slots|
        ensures r.slots[j] != Some(t)
      {
        if j != i {
          SlotsDistinct(s, i, j);
        }
      }
      forall u | u in r.abilities && r.abilities[u].equipped
        ensures Some(u) in r.slots
      {
        var j :| 0 <= j < |s.slots| && s.slots[j] == Some(u);
        assert r.slots[j] == Some(u);
      }
    } else {
      assert Some(t) !in s.slots;
    }
  }

  /** Unlocking keeps the slot invariant. */
  lemma UnlockKeepsConsistent(s: PassiveState, t: PassiveAbilityType)
    requires Consistent(s)
    ensures Consistent(Unlock(s, t))
  {
  }

  /** Equipping and then unequipping the same ability restores the store. */
  lemma EquipThenUnequip(s: PassiveState, t: PassiveAbilityType)
    requires Consistent(s) && Equip(s, t).0
    ensures Unequip(Equip(s, t).1, t) == s
  {
    var r := Equip(s, t).1;
    var i := IndexOf(s.slots, None);
    assert Some(t) !in s.slots;
    assert r.slots[i] == Some(t);
    var k := IndexOf(r.slots, Some(t));
    assert k <= i;
    assert k == i;
    assert r.slots[i := None] == s.slots;
    assert r.abilities[t := r.abilities[t].(equipped := false)] == s.abilities;
  }

  /** `getEquippedPassives`: the abilities in the slots, in slot order, skipping empty
      slots and types missing from the table. */
  function EquippedList(s: PassiveState): (r: seq<PassiveAbility>)
    ensures |r| <= |s.slots|
    ensures forall p :: p in r ==> exists i :: 0 <= i < |s.slots| && s.slots[i].Some? &&
                                             s.slots[i].value in s.abilities && s.abilities[s.slots[i].value] == p
    decreases |s.slots|
  {
    if s.slots == [] then []
    else
      var rest := EquippedList(PassiveState(s.abilities, s.slots[1..]));
      match s.slots[0]
      case None => rest
      case Some(t) => if t in s.abilities then [s.abilities[t]] + rest else rest
  }

  /** On a consistent store the list holds exactly the equipped abilities. */
  lemma EquippedListExact(s: PassiveState)
    requires Consistent(s)
    ensures forall p :: p in EquippedList(s) ==> p.equipped
    ensures forall t :: t in s.abilities && s.abilities[t].equipped ==> s.abilities[t] in EquippedList(s)
  {
    forall t | t in s.abilities && s.abilities[t].equipped
      ensures s.abilities[t] in EquippedList(s)
    {
      var i :| 0 <= i < |s.slots| && s.slots[i] == Some(t);
      ListHoldsSlot(s.abilities, s.slots, i);
    }
  }

  lemma {:induction false} ListHoldsSlot(abilities: map<PassiveAbilityType, PassiveAbility>,
                                         slots: seq<Option<PassiveAbilityType>>, i: int)
    requires 0 <= i < |slots| && slots[i].Some? && slots[i].value in abilities
    ensures abilities[slots[i].value] in EquippedList(PassiveState(abilities, slots))
    decreases |slots|
  {
    if i > 0 {
      ListHoldsSlot(abilities, slots[1..], i - 1);
    }
  }

  /** `equipped.find(p => p.type === t)`. */
  function FindKind(list: seq<PassiveAbility>, t: PassiveAbilityType): (r: Option<PassiveAbility>)
    ensures r.Some? ==> r.value in list && r.value.kind == t
    ensures r.None? <==> forall p :: p in list ==> p.kind != t
  {
    if list == [] then None
    else if list[0].kind == t then Some(list[0])
    else FindKind(list[1..], t)
  }

  /** `x || d` on an optional number: the default when the value is absent or zero. */
  function OrDefault(x: Option<real>, d: real): real {
    if x.Some? && x.value != 0.0 then x.value else d
  }

  /** The equipped ability of type t, if any. */
  function EquippedOf(s: PassiveState, t: PassiveAbilityType): Option<PassiveAbility> {
    FindKind(EquippedList(s), t)
  }

  /** On a consistent store the lookup finds the table's entry exactly when it is
      equipped. */
  lemma EquippedOfExact(s: PassiveState, t: PassiveAbilityType)
    requires Consistent(s)
    ensures EquippedOf(s, t) == if t in s.abilities && s.abilities[t].equipped then Some(s.abilities[t]) else None
  {
    EquippedListExact(s);
  }

  /** `calculateFluxMultiplier`. */
  function FluxMultiplier(s: PassiveState): real {
    var p := EquippedOf(s, PassiveAbilityType.FluxBoost);
    if p.Some? then OrDefault(p.value.effect.multiplier, 1.0) else 1.0
  }

  /** `calculateScoreMultiplier`. */
  function ScoreMultiplier(s: PassiveState): real {
    var p := EquippedOf(s, PassiveAbilityType.ScoreMultiplier);
    if p.Some? then OrDefault(p.value.effect.multiplier, 1.0) else 1.0
  }

  /** `shouldUseLuckyPieces`. */
  function UseLuckyPieces(s: PassiveState): bool {
    EquippedOf(s, PassiveAbilityType.LuckyPieces).Some?
  }

  /** `getComboTimerBonus`. */
  function ComboTimerBonus(s: PassiveState): real {
    var p := EquippedOf(s, PassiveAbilityType.ComboMaster);
    if p.Some? then OrDefault(p.value.effect.duration, 0.0) else 0.0
  }

  /** `getIceHealthModifier`. */
  function IceHealthModifier(s: PassiveState): real {
    var p := EquippedOf(s, PassiveAbilityType.IceBreaker);
    if p.Some? then OrDefault(p.value.effect.healthModifier, 0.0) else 0.0
  }

  /** Each lookup yields the equipped ability's effect value, or the neutral value (1,
      false or 0) when that ability is not equipped. */
  lemma EffectLookups(s: PassiveState)
    requires Consistent(s)
    ensures var a := s.abilities;
      && FluxMultiplier(s) ==
           (if PassiveAbilityType.FluxBoost in a && a[PassiveAbilityType.FluxBoost].equipped
            then OrDefault(a[PassiveAbilityType.FluxBoost].effect.multiplier, 1.0) else 1.0)
      && ScoreMultiplier(s) ==
           (if PassiveAbilityType.ScoreMultiplier in a && a[PassiveAbilityType.ScoreMultiplier].equipped
            then OrDefault(a[PassiveAbilityType.ScoreMultiplier].effect.multiplier, 1.0) else 1.0)
      && (UseLuckyPieces(s) <==> PassiveAbilityType.LuckyPieces in a && a[PassiveAbilityType.LuckyPieces].equipped)
      && ComboTimerBonus(s) ==
           (if PassiveAbilityType.ComboMaster in a && a[PassiveAbilityType.ComboMaster].equipped
            then OrDefault(a[PassiveAbilityType.ComboMaster].effect.duration, 0.0) else 0.0)
      && IceHealthModifier(s) ==
           (if PassiveAbilityType.IceBreaker in a && a[PassiveAbilityType.IceBreaker].equipped
            then OrDefault(a[PassiveAbilityType.IceBreaker].effect.healthModifier, 0.0) else 0.0)
  {
    EquippedOfExact(s, PassiveAbilityType.FluxBoost);
    EquippedOfExact(s, PassiveAbilityType.ScoreMultiplier);
    EquippedOfExact(s, PassiveAbilityType.LuckyPieces);
    EquippedOfExact(s, PassiveAbilityType.ComboMaster);
    EquippedOfExact(s, PassiveAbilityType.IceBreaker);
  }

  /** With the default table, equipping FLUX_BOOST and SCORE_MULTIPLIER gives the
      multipliers 1.25 and 1.5. */
  lemma DefaultBoosts(s: PassiveState)
    requires Consistent(s)
    requires forall t :: t in s.abilities ==> s.abilities[t].effect == DefaultEffect(t)
    ensures PassiveAbilityType.FluxBoost in s.abilities && s.abilities[PassiveAbilityType.FluxBoost].equipped ==>
              FluxMultiplier(s) == 1.25
    ensures PassiveAbilityType.ScoreMultiplier in s.abilities && s.abilities[PassiveAbilityType.ScoreMultiplier].equipped ==>
              ScoreMultiplier(s) == 1.5
  {
    EffectLookups(s);
  }

  class PassiveStore {
    var passiveAbilities: map<PassiveAbilityType, PassiveAbility>
    var equippedSlots: seq<Option<PassiveAbilityType>>

    function State(): PassiveState
      reads this
    {
      PassiveState(passiveAbilities, equippedSlots)
    }

    /** An empty table and three empty slots. */
    constructor()
      ensures Consistent(State())
      ensures passiveAbilities == map[] && equippedSlots == [None, None, None]
    {
      passiveAbilities := map[];
      equippedSlots := [None, None, None];
    }

    /** `initializePassives`: replaces the table with the five default abilities and
        leaves the slots alone, so the slot invariant holds afterwards exactly when every
        slot is empty. */
    method InitializePassives()
      requires |equippedSlots| == MAX_EQUIPPED
      modifies this
      ensures passiveAbilities == DefaultPassives() && equippedSlots == old(equippedSlots)
      ensures Consistent(State()) <==> forall i :: 0 <= i < |equippedSlots| ==> equippedSlots[i] == None
    {
      passiveAbilities := DefaultPassives();
      if !(forall i :: 0 <= i < |equippedSlots| ==> equippedSlots[i] == None) {
        var i :| 0 <= i < |equippedSlots| && equippedSlots[i] != None;
        assert equippedSlots[i].value in passiveAbilities;
      }
    }

    method EquipPassive(t: PassiveAbilityType) returns (ok: bool)
      requires Consistent(State())
      modifies this
      ensures Consistent(State())
      ensures (ok, State()) == Equip(old(State()), t)
    {
      EquipKeepsConsistent(State(), t);
      var passive := if t in passiveAbilities then Some(passiveAbilities[t]) else None;
      if passive == None || !passive.value.unlocked || passive.value.equipped {
        return false;
      }
      var emptySlotIndex := IndexOf(equippedSlots, None);
      if emptySlotIndex == -1 {
        return false;
      }
      equippedSlots := equippedSlots[emptySlotIndex := Some(t)];
      passiveAbilities := passiveAbilities[t := passive.value.(equipped := true)];
      return true;
    }

    method UnequipPassive(t: PassiveAbilityType)
      requires Consistent(State())
      modifies this
      ensures Consistent(State()) && Some(t) !in equippedSlots
      ensures State() == Unequip(old(State()), t)
    {
      UnequipKeepsConsistent(State(), t);
      if t !in passiveAbilities || !passiveAbilities[t].equipped {
        return;
      }
      var passive := passiveAbilities[t];
      var newSlots := equippedSlots;
      var slotIndex := IndexOf(newSlots, Some(t));
      if slotIndex != -1 {
        newSlots := newSlots[slotIndex := None];
      }
      equippedSlots := newSlots;
      passiveAbilities := passiveAbilities[t := passive.(equipped := false)];
    }

    method UnlockPassive(t: PassiveAbilityType)
      requires Consistent(State())
      modifies this
      ensures Consistent(State())
      ensures State() == Unlock(old(State()), t)
    {
      UnlockKeepsConsistent(State(), t);
      if t !in passiveAbilities {
        return;
      }
      passiveAbilities := passiveAbilities[t := passiveAbilities[t].(unlocked := true)];
    }

    /** `isPassiveEquipped`: the ability is known and marked equipped. */
    function IsPassiveEquipped(t: PassiveAbilityType): (b: bool)
      reads this
      ensures Consistent(State()) ==> (b <==> Some(t) in equippedSlots)
    {
      t in passiveAbilities && passiveAbilities[t].equipped
    }
  }
}
