/** The persisted settings: the repeat-mode encoding used in the settings file and the
    save-debounce state. Times and durations are integers in one common unit (milliseconds). */
module Config {

  datatype RepeatMode = Off | One | All

  /** `RepeatToInt`: the number written to the settings file. */
  function RepeatToInt(m: RepeatMode): (r: int)
    ensures 0 <= r <= 2
  {
    match m
    case Off => 0
    case One => 1
    case All => 2
  }

  /** `IntToRepeat`: 1 and 2 name One and All; every other number reads back as Off. */
  function IntToRepeat(v: int): (r: RepeatMode)
    ensures r == One <==> v == 1
    ensures r == All <==> v == 2
  {
    if v == 1 then One
    else if v == 2 then All
    else Off
  }

  /** Decoding undoes encoding for every mode. */
  lemma RepeatRoundTrip(m: RepeatMode)
    ensures IntToRepeat(RepeatToInt(m)) == m
  {
  }

  /** The encoding is onto 0..2 and those are the only numbers that round-trip. */
  lemma RepeatEncodingOnto(v: int)
    ensures RepeatToInt(IntToRepeat(v)) == v <==> 0 <= v <= 2
  {
  }

  class Config {
    var dirty: bool
    /** Time of the first change since the last save. */
    var dirtySince: int

    constructor ()
      ensures !dirty && dirtySince == 0
    {
      dirty := false;
      dirtySince := 0;
    }

    /** Records a change at time `now`; only the first change after a save sets the timestamp. */
    method MarkDirty(now: int)
      modifies this
      ensures dirty
      ensures dirtySince == if old(dirty) then old(dirtySince) else now
      ensures forall later: int, debounce: int :: now <= later && debounce <= later - dirtySince ==> ShouldSave(later, debounce)
    {
      if !dirty {
        dirtySince := now;
      }
      dirty := true;
    }

    /** True iff there are unsaved changes and at least `debounce` has passed since the first. */
    function ShouldSave(now: int, debounce: int): (r: bool)
      reads this
      ensures !dirty ==> !r
      ensures dirty ==> (r <==> now - dirtySince >= debounce)
    {
      if !dirty then false else now - dirtySince >= debounce
    }

    /** After a save nothing is due until the next MarkDirty. */
    method Saved()
      modifies this`dirty
      ensures !dirty && dirtySince == old(dirtySince)
      ensures forall now: int, debounce: int :: !ShouldSave(now, debounce)
    {
      dirty := false;
    }
  }

  /** Marking at `t` makes a zero debounce due at `t`; later marks keep the first timestamp, so
      the wait is measured from the first change; a save clears it. */
  method DebounceScenario(t: int, debounce: nat)
  {
    var cfg := new Config();
    cfg.MarkDirty(t);
    assert cfg.ShouldSave(t, 0);
    cfg.MarkDirty(t + debounce);
    assert cfg.dirtySince == t && cfg.ShouldSave(t + debounce, debounce);
    cfg.Saved();
    assert !cfg.ShouldSave(t + debounce, 0);
  }
}
