/** `SysLog.toggle` as a step on the four attributes it reads and writes:
    `level`, `status`, `_toggle_level` and `_toggle_status`. */
module ToggleRule {
  import opened Options
  import opened Layout
  import opened LogRule

  datatype LevelState = LevelState(
    level: int,                        // `level`, the threshold
    status: map<string, bool>,         // `status`
    toggleLevel: Option<int>,          // `_toggle_level`
    toggleStatus: map<string, bool>)   // `_toggle_status`

  /** Python truthiness of `_toggle_level`: None and 0 are false. */
  predicate Truthy(t: Option<int>)
  {
    t.Some? && t.value != 0
  }

  /** Every key of `m` mapped to True. */
  function AllTrue(m: map<string, bool>): (r: map<string, bool>)
    ensures r.Keys == m.Keys
    ensures forall k :: k in r ==> r[k]
  {
    map k | k in m :: true
  }

  /** `toggle`: restore the saved level and status when `_toggle_level` is
      truthy; otherwise save them, raise the threshold to DEBUG, and set
      every status key to True. */
  function Toggle(s: LevelState): LevelState
  {
    if Truthy(s.toggleLevel) then
      LevelState(s.toggleLevel.value, s.toggleStatus, None, map[])
    else
      LevelState(DEBUG, AllTrue(s.status), Some(s.level), s.toggleStatus + s.status)
  }

  /** No override is in force and nothing is saved. */
  predicate Normal(s: LevelState)
  {
    !Truthy(s.toggleLevel) && s.toggleStatus == map[]
  }

  /** Entering the override from the normal state: threshold DEBUG, the old
      threshold and status saved, the same status keys all marked, none added
      or removed. */
  lemma ToggleEnters(s: LevelState)
    requires Normal(s)
    ensures var t := Toggle(s);
      && t.level == DEBUG
      && t.toggleLevel == Some(s.level)
      && t.toggleStatus == s.status
      && t.status.Keys == s.status.Keys
      && (forall k :: k in t.status ==> t.status[k])
  {
    assert map[] + s.status == s.status;
  }

  /** After entering, no source tag already in `status` has its whole
      messages recorded. */
  lemma ToggleSilencesKnownTags(s: LevelState, tag: string)
    requires !Truthy(s.toggleLevel)
    requires tag in s.status
    ensures Seen(Toggle(s).status, tag)
  {
  }

  /** Two toggles from the normal state at a nonzero threshold restore the
      threshold and status exactly and leave nothing saved. */
  lemma ToggleTwiceRestores(s: LevelState)
    requires Normal(s) && s.level != 0
    ensures Toggle(Toggle(s)) == LevelState(s.level, s.status, None, map[])
  {
    ToggleEnters(s);
  }

  /** When something is already saved, a round trip restores the saved
      status merged under the current one rather than the current one. */
  lemma ToggleTwiceMerges(s: LevelState)
    requires !Truthy(s.toggleLevel) && s.level != 0
    ensures Toggle(Toggle(s)).status == s.toggleStatus + s.status
    ensures Toggle(Toggle(s)).level == s.level
  {
  }

  /** From threshold 0 (LOG_EMERG) the saved level is falsy, so the second
      toggle enters again instead of restoring. */
  lemma ToggleTwiceFromZero(s: LevelState)
    requires !Truthy(s.toggleLevel) && s.level == 0
    ensures var t := Toggle(Toggle(s));
      && t.level == DEBUG
      && t.toggleLevel == Some(DEBUG)
      && t.status == AllTrue(s.status)
  {
  }

  /** `n` toggles in a row. */
  function ToggleN(s: LevelState, n: nat): LevelState
  {
    if n == 0 then s else Toggle(ToggleN(s, n - 1))
  }

  /** Threshold DEBUG with a saved level that is absent, 0 or DEBUG. */
  predicate StuckAtDebug(s: LevelState)
  {
    s.level == DEBUG && (s.toggleLevel.None? || s.toggleLevel == Some(0) || s.toggleLevel == Some(DEBUG))
  }

  /** Once the override has been entered from threshold 0, no number of
      further toggles brings 0 back: the threshold stays DEBUG and the saved
      level is only ever absent, 0 or DEBUG. */
  lemma {:induction false} ZeroNeverRestored(s: LevelState, n: nat)
    requires !Truthy(s.toggleLevel) && s.level == 0
    requires n >= 1
    ensures StuckAtDebug(ToggleN(s, n))
    ensures ToggleN(s, n).level == DEBUG
  {
    if n > 1 {
      ZeroNeverRestored(s, n - 1);
    }
  }
}
