/**
  The player's progression record kept by the user context provider
  (src/context/UserContext.tsx): level, experience points and the two
  unlock lists, with the `addXp` and `unlockItem` transitions and the
  snapshot load/save boundary.

  JavaScript numbers are modelled as unbounded integers.
*/
module Progression {

  /** The persisted record; the unlock lists are JSON arrays of ids. */
  datatype UserData = UserData(
    level: int,
    xp: int,
    unlockedCharacters: seq<string>,
    unlockedAccessories: seq<string>)

  /** Experience a level asks for is `level * XpPerLevel`. */
  const XpPerLevel: int := 100

  function Threshold(level: int): int {
    level * XpPerLevel
  }

  /** The record the provider starts from before (or instead of) a stored snapshot. */
  const InitialUser: UserData := UserData(1, 0, [], [])

  /** The progression invariant: xp stays below the current threshold. */
  predicate WellFormed(u: UserData) {
    u.level >= 1 && 0 <= u.xp < Threshold(u.level)
  }

  /**
    Experience accumulated since level 1 began: the thresholds of all
    completed levels (100 + 200 + ... + 100*(level-1)) plus the current xp.
  */
  function TotalXp(u: UserData): int {
    50 * u.level * (u.level - 1) + u.xp
  }

  /** The two kinds of unlockable item. */
  datatype ItemKind = CharacterItem | AccessoryItem

  function Unlocked(u: UserData, kind: ItemKind): seq<string> {
    match kind
    case CharacterItem => u.unlockedCharacters
    case AccessoryItem => u.unlockedAccessories
  }

  /** What a grant produces: the new in-memory record and the snapshot handed to the save routine. */
  datatype Grant = Grant(user: UserData, saved: UserData)

  /**
    `addXp`: one comparison against the current threshold, so at most one
    level is gained per call; the new record is both set in memory and saved.
  */
  function AddXp(u: UserData, amount: int): (g: Grant)
    ensures g.saved == g.user
    ensures g.user.unlockedCharacters == u.unlockedCharacters
    ensures g.user.unlockedAccessories == u.unlockedAccessories
    ensures u.level <= g.user.level <= u.level + 1
    ensures g.user.level == u.level + 1 <==> u.xp + amount >= Threshold(u.level)
    ensures TotalXp(g.user) == TotalXp(u) + amount
  {
    var newXp := u.xp + amount;
    var next :=
      if newXp >= Threshold(u.level) then u.(level := u.level + 1, xp := newXp - Threshold(u.level))
      else u.(xp := newXp);
    Grant(next, next)
  }

  /**
    `unlockItem`: the handler only logs; no state is touched and nothing is saved.
  */
  function UnlockItem(u: UserData, kind: ItemKind, id: string): (r: UserData)
    ensures r.level == u.level && r.xp == u.xp
    ensures forall k: ItemKind :: Unlocked(r, k) == Unlocked(u, k)
  {
    u
  }

  /** What the initial load reads from storage. */
  datatype StoredSnapshot = NoSnapshot | Snapshot(data: UserData) | Unreadable

  /** The load effect: a stored snapshot replaces the default; a missing or unreadable one keeps it. */
  function LoadUser(stored: StoredSnapshot): (u: UserData)
    ensures stored.Snapshot? ==> u == stored.data
    ensures !stored.Snapshot? ==> u == InitialUser
    ensures (stored.Snapshot? ==> WellFormed(stored.data)) ==> WellFormed(u)
  {
    match stored
    case Snapshot(data) => data
    case _ => InitialUser
  }

  // ---------------------------------------------------------------------------
  // The multi-level rule (reference definition)
  // ---------------------------------------------------------------------------

  /**
    Carries overflowing experience into further levels until xp is below the
    threshold of the level reached, re-reading the threshold after each step.
  */
  function Settle(u: UserData): (r: UserData)
    requires u.level >= 1 && u.xp >= 0
    ensures WellFormed(r)
    ensures r.level >= u.level
    ensures TotalXp(r) == TotalXp(u)
    ensures r.unlockedCharacters == u.unlockedCharacters && r.unlockedAccessories == u.unlockedAccessories
    decreases u.xp
  {
    if u.xp >= Threshold(u.level) then
      Settle(u.(level := u.level + 1, xp := u.xp - Threshold(u.level)))
    else
      u
  }

  /** The grant as a while-loop over levels would compute it. */
  function LevelLoop(u: UserData, amount: int): (r: UserData)
    requires u.level >= 1 && u.xp >= 0 && amount >= 0
  {
    Settle(u.(xp := u.xp + amount))
  }

  // ---------------------------------------------------------------------------
  // Lemmas
  // ---------------------------------------------------------------------------

  lemma InitialUserIsWellFormed()
    ensures WellFormed(InitialUser)
    ensures InitialUser.level == 1 && InitialUser.xp == 0
    ensures InitialUser.unlockedCharacters == [] && InitialUser.unlockedAccessories == []
  {
  }

  /** Below the threshold the level stays and xp simply grows. */
  lemma AddXpBelowThreshold(u: UserData, amount: int)
    requires u.xp + amount < Threshold(u.level)
    ensures AddXp(u, amount).user == u.(xp := u.xp + amount)
  {
  }

  /** At or above the threshold exactly one level is gained and the threshold is paid out of xp. */
  lemma AddXpAtThreshold(u: UserData, amount: int)
    requires u.xp + amount >= Threshold(u.level)
    ensures AddXp(u, amount).user.level == u.level + 1
    ensures AddXp(u, amount).user.xp == u.xp + amount - Threshold(u.level)
  {
  }

  /** With non-negative xp and grant, xp stays non-negative and the level never drops. */
  lemma AddXpMonotone(u: UserData, amount: int)
    requires u.xp >= 0 && amount >= 0
    ensures AddXp(u, amount).user.xp >= 0
    ensures AddXp(u, amount).user.level >= u.level
  {
  }

  /**
    Exactly which grants keep the invariant: from a well-formed record a
    non-negative grant leaves it well-formed iff xp + amount stays below
    the thresholds of the current and the next level together.
  */
  lemma AddXpKeepsBoundIff(u: UserData, amount: int)
    requires WellFormed(u) && amount >= 0
    ensures WellFormed(AddXp(u, amount).user) <==> u.xp + amount < Threshold(u.level) + Threshold(u.level + 1)
  {
    var n := AddXp(u, amount).user;
    if u.xp + amount >= Threshold(u.level) {
      assert n.level == u.level + 1;
      assert n.xp == u.xp + amount - Threshold(u.level);
    }
  }

  /** Grants of at most one hundred, which covers the app's 10 and 50, keep the invariant. */
  lemma SmallGrantKeepsBound(u: UserData, amount: int)
    requires WellFormed(u) && 0 <= amount <= XpPerLevel
    ensures WellFormed(AddXp(u, amount).user)
  {
    AddXpKeepsBoundIff(u, amount);
  }

  /** The single-step rule agrees with the multi-level rule exactly when the latter stops after one step. */
  lemma AddXpAgreesWithLevelLoopIff(u: UserData, amount: int)
    requires WellFormed(u) && amount >= 0
    ensures AddXp(u, amount).user == LevelLoop(u, amount)
        <==> u.xp + amount < Threshold(u.level) + Threshold(u.level + 1)
  {
    var n := AddXp(u, amount).user;
    var start := u.(xp := u.xp + amount);
    AddXpKeepsBoundIff(u, amount);
    if u.xp + amount < Threshold(u.level) {
      assert LevelLoop(u, amount) == start;
    } else {
      var once := start.(level := u.level + 1, xp := start.xp - Threshold(u.level));
      assert LevelLoop(u, amount) == Settle(once);
      assert n == once;
      if u.xp + amount < Threshold(u.level) + Threshold(u.level + 1) {
        assert Settle(once) == once;
      } else {
        assert !WellFormed(n);
        assert WellFormed(LevelLoop(u, amount));
      }
    }
  }

  /** A grant of 250 from level 1 with 80 xp: one level only, leaving xp over the new threshold. */
  lemma LargeGrantGainsOneLevel()
    ensures AddXp(UserData(1, 80, [], []), 250).user == UserData(2, 230, [], [])
    ensures !WellFormed(AddXp(UserData(1, 80, [], []), 250).user)
    ensures LevelLoop(UserData(1, 80, [], []), 250) == UserData(3, 30, [], [])
  {
    var u := UserData(1, 330, [], []);
    assert Settle(u) == Settle(UserData(2, 230, [], []));
    assert Settle(UserData(2, 230, [], [])) == Settle(UserData(3, 30, [], []));
  }

  /** `unlockItem` records nothing: an id is unlocked afterwards iff it was before. */
  lemma UnlockItemRecordsNothing(u: UserData, kind: ItemKind, id: string)
    ensures UnlockItem(u, kind, id) == u
    ensures id in Unlocked(UnlockItem(u, kind, id), kind) <==> id in Unlocked(u, kind)
  {
  }

  /**
    A sequence of grants, each applied to the record the previous one left
    and saved; `saved` is the last snapshot (the starting record when there
    were no grants).
  */
  function ApplyGrants(u: UserData, grants: seq<int>): (r: Grant)
    decreases |grants|
  {
    if grants == [] then Grant(u, u)
    else ApplyGrants(AddXp(u, grants[0]).user, grants[1..])
  }

  /**
    A session as the app runs it: load a snapshot (well-formed, if there
    is one), apply any sequence of the app's grants of 10 and 50, then
    reload the last snapshot saved. The record stays well-formed, the
    reload gives back the in-memory record, and no experience is lost.
  */
  lemma AppGrantsSurviveReload(stored: StoredSnapshot, grants: seq<int>)
    requires stored.Snapshot? ==> WellFormed(stored.data)
    requires forall k :: 0 <= k < |grants| ==> grants[k] == 10 || grants[k] == 50
    ensures var g := ApplyGrants(LoadUser(stored), grants);
      && WellFormed(g.user)
      && LoadUser(Snapshot(g.saved)) == g.user
      && TotalXp(g.user) == TotalXp(LoadUser(stored)) + Sum(grants)
  {
    GrantsKeepBound(LoadUser(stored), grants);
  }

  function Sum(xs: seq<int>): int
    decreases |xs|
  {
    if xs == [] then 0 else xs[0] + Sum(xs[1..])
  }

  /** The app's grants, applied in sequence, keep the invariant and add up. */
  lemma {:induction false} GrantsKeepBound(u: UserData, grants: seq<int>)
    requires WellFormed(u)
    requires forall k :: 0 <= k < |grants| ==> grants[k] == 10 || grants[k] == 50
    ensures WellFormed(ApplyGrants(u, grants).user)
    ensures ApplyGrants(u, grants).saved == ApplyGrants(u, grants).user
    ensures TotalXp(ApplyGrants(u, grants).user) == TotalXp(u) + Sum(grants)
    decreases |grants|
  {
    if grants != [] {
      SmallGrantKeepsBound(u, grants[0]);
      GrantsKeepBound(AddXp(u, grants[0]).user, grants[1..]);
    }
  }

  /** Loading the snapshot a grant saved gives back the in-memory record of that grant. */
  lemma SavedGrantReloads(u: UserData, amount: int)
    ensures LoadUser(Snapshot(AddXp(u, amount).saved)) == AddXp(u, amount).user
  {
  }
}
