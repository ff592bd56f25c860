/**
  Accessory gating on the character screen (src/screens/CharacterScreen.tsx):
  the accessory table, the level test that unlocks an entry, and the two
  equip flags that only an unlocked entry's press may flip.
*/
module Character {
  import Progression

  /** One row of the accessory table (the image asset is left out). */
  datatype Accessory = Accessory(id: string, name: string, requiredLevel: int)

  const Hat: Accessory := Accessory("hat", "Hat", 5)
  const Glasses: Accessory := Accessory("glasses", "Glasses", 2)

  const Accessories: seq<Accessory> := [Hat, Glasses]

  /** The screen's local equip flags, both off when it mounts. */
  datatype Equipped = Equipped(hat: bool, glasses: bool)

  const NothingEquipped: Equipped := Equipped(false, false)

  /** The gate: an accessory is unlocked once the player's level reaches its required level. */
  predicate IsUnlocked(user: Progression.UserData, acc: Accessory) {
    user.level >= acc.requiredLevel
  }

  /** `handleAccessoryPress`: flip the flag the id names; any other id does nothing. */
  function HandleAccessoryPress(e: Equipped, id: string): Equipped {
    if id == "hat" then e.(hat := !e.hat)
    else if id == "glasses" then e.(glasses := !e.glasses)
    else e
  }

  /** A press on a table entry: forwarded only when the entry is unlocked. */
  function Press(user: Progression.UserData, e: Equipped, acc: Accessory): (r: Equipped)
    ensures !IsUnlocked(user, acc) ==> r == e
    ensures acc in Accessories && IsUnlocked(user, acc) ==> r != e
    ensures r.hat != e.hat ==> acc.id == "hat" && IsUnlocked(user, acc)
    ensures r.glasses != e.glasses ==> acc.id == "glasses" && IsUnlocked(user, acc)
  {
    if IsUnlocked(user, acc) then HandleAccessoryPress(e, acc.id) else e
  }

  // ---------------------------------------------------------------------------
  // Lemmas
  // ---------------------------------------------------------------------------

  /** The table: a hat from level 5, glasses from level 2. */
  lemma AccessoryTable()
    ensures |Accessories| == 2
    ensures Accessories[0].id == "hat" && Accessories[0].requiredLevel == 5
    ensures Accessories[1].id == "glasses" && Accessories[1].requiredLevel == 2
  {
  }

  /** What each level unlocks, in both directions. */
  lemma UnlockThresholds(user: Progression.UserData)
    ensures IsUnlocked(user, Hat) <==> user.level >= 5
    ensures IsUnlocked(user, Glasses) <==> user.level >= 2
    ensures IsUnlocked(user, Hat) ==> IsUnlocked(user, Glasses)
  {
  }

  /** Gaining levels never locks an accessory again. */
  lemma UnlockMonotoneInLevel(u1: Progression.UserData, u2: Progression.UserData, acc: Accessory)
    requires u1.level <= u2.level && IsUnlocked(u1, acc)
    ensures IsUnlocked(u2, acc)
  {
  }

  /** Gating reads only the level: records with equal levels press alike. */
  lemma PressReadsOnlyLevel(u1: Progression.UserData, u2: Progression.UserData, e: Equipped, acc: Accessory)
    requires u1.level == u2.level
    ensures Press(u1, e, acc) == Press(u2, e, acc)
  {
  }

  /** A press on a locked accessory changes nothing. */
  lemma LockedPressChangesNothing(user: Progression.UserData, e: Equipped, acc: Accessory)
    requires !IsUnlocked(user, acc)
    ensures Press(user, e, acc) == e
  {
  }

  /** A press on an unlocked table entry flips its own flag and leaves the other alone. */
  lemma UnlockedPressFlipsOwnFlag(user: Progression.UserData, e: Equipped, acc: Accessory)
    requires acc in Accessories && IsUnlocked(user, acc)
    ensures Press(user, e, acc).hat == (if acc.id == "hat" then !e.hat else e.hat)
    ensures Press(user, e, acc).glasses == (if acc.id == "glasses" then !e.glasses else e.glasses)
    ensures Press(user, e, acc) != e
  {
  }

  /** Pressing the same accessory twice restores the flags. */
  lemma PressTwiceRestores(user: Progression.UserData, e: Equipped, acc: Accessory)
    ensures Press(user, Press(user, e, acc), acc) == e
  {
  }
}
