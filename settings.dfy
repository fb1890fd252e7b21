// The mod's settings: three mutually exclusive unlock modes and the hidden
// Contra flag that works around the host not writing a settings file whose
// values are all defaults.
module Settings {

  /** A snapshot of the settings object's four stored flags. */
  datatype Modes = Modes(unlockAll: bool, extraAtStart: bool, milestones: bool, contra: bool)

  predicate AnyMode(m: Modes) {
    m.unlockAll || m.extraAtStart || m.milestones
  }

  function ModeCount(m: Modes): nat {
    (if m.unlockAll then 1 else 0) + (if m.extraAtStart then 1 else 0) + (if m.milestones then 1 else 0)
  }

  predicate ExactlyOne(m: Modes) {
    ModeCount(m) == 1
  }

  /** The field initialisers: unlock-all on, the other modes off, Contra off. */
  const Initial: Modes := Modes(true, false, false, false)

  /** The state the UnlockAll fallback produces from a state with no mode on. */
  const Fallback: Modes := Modes(true, false, false, true)

  /** EnsureState: when no mode is on, re-enter the UnlockAll setter with true. */
  function EnsuredState(m: Modes): (r: Modes)
    decreases if AnyMode(m) then 0 else 2
    ensures AnyMode(r)
    ensures AnyMode(m) ==> r == m
    ensures !AnyMode(m) ==> r == Fallback
  {
    if !m.unlockAll && !m.extraAtStart && !m.milestones then UnlockAllSet(m, true) else m
  }

  /** The UnlockAll setter: store the value, copy it into Contra, clear the
      conflicting modes when it is true, then ensure the state. */
  function UnlockAllSet(m: Modes, value: bool): (r: Modes)
    decreases if value then 1 else 3
    ensures AnyMode(r)
    ensures r.contra == r.unlockAll
    ensures value ==> r == Fallback
    ensures !value && (m.extraAtStart || m.milestones) ==> r == m.(unlockAll := false, contra := false)
    ensures !value && !m.extraAtStart && !m.milestones ==> r == Fallback
    ensures ExactlyOne(m) ==> ExactlyOne(r)
    // The point of Contra: the stored values are never all at their defaults.
    ensures r != Initial
  {
    var stored := m.(unlockAll := value, contra := value);
    var cleared := if value then stored.(extraAtStart := false, milestones := false) else stored;
    EnsuredState(cleared)
  }

  /** The ExtraTilesAtStart setter. Contra changes only through the fallback. */
  function ExtraTilesAtStartSet(m: Modes, value: bool): (r: Modes)
    ensures AnyMode(r)
    ensures value ==> r == m.(extraAtStart := true, unlockAll := false, milestones := false)
    ensures !value && (m.unlockAll || m.milestones) ==> r == m.(extraAtStart := false)
    ensures !value && !m.unlockAll && !m.milestones ==> r == Fallback
    ensures ExactlyOne(m) ==> ExactlyOne(r)
  {
    var stored := m.(extraAtStart := value);
    var cleared := if value then stored.(unlockAll := false, milestones := false) else stored;
    EnsuredState(cleared)
  }

  /** The AssignToMilestones setter. Contra changes only through the fallback. */
  function AssignToMilestonesSet(m: Modes, value: bool): (r: Modes)
    ensures AnyMode(r)
    ensures value ==> r == m.(milestones := true, unlockAll := false, extraAtStart := false)
    ensures !value && (m.unlockAll || m.extraAtStart) ==> r == m.(milestones := false)
    ensures !value && !m.unlockAll && !m.extraAtStart ==> r == Fallback
    ensures ExactlyOne(m) ==> ExactlyOne(r)
  {
    var stored := m.(milestones := value);
    var cleared := if value then stored.(unlockAll := false, extraAtStart := false) else stored;
    EnsuredState(cleared)
  }

  /** SetDefaults: unlock-all only; Contra is left as it was. */
  function Defaults(m: Modes): (r: Modes)
    ensures ExactlyOne(r) && r.unlockAll
    ensures r.contra == m.contra
  {
    m.(unlockAll := true, extraAtStart := false, milestones := false)
  }

  /** The ResetModSettings setter (the value written is ignored): defaults,
      then Contra := UnlockAll. Saving is not part of the model. */
  function ResetSettings(m: Modes): (r: Modes)
    ensures r == Fallback
  {
    var d := Defaults(m);
    d.(contra := d.unlockAll)
  }

  /** The writes the host (options UI or settings loader) can make; Contra is a
      public auto-property, so the loader can also restore it directly. */
  datatype SettingsWrite =
    | UnlockAllTo(value: bool)
    | ExtraTilesAtStartTo(value: bool)
    | AssignToMilestonesTo(value: bool)
    | RestoreDefaults
    | ResetPressed
    | ContraTo(value: bool)

  function Apply(m: Modes, w: SettingsWrite): Modes {
    match w
    case UnlockAllTo(v) => UnlockAllSet(m, v)
    case ExtraTilesAtStartTo(v) => ExtraTilesAtStartSet(m, v)
    case AssignToMilestonesTo(v) => AssignToMilestonesSet(m, v)
    case RestoreDefaults => Defaults(m)
    case ResetPressed => ResetSettings(m)
    case ContraTo(v) => m.(contra := v)
  }

  function Run(m: Modes, ws: seq<SettingsWrite>): Modes
    decreases |ws|
  {
    if ws == [] then m else Run(Apply(m, ws[0]), ws[1..])
  }

  /** Any sequence of writes keeps exactly one mode on. */
  lemma {:induction false} RunKeepsExactlyOne(m: Modes, ws: seq<SettingsWrite>)
    requires ExactlyOne(m)
    ensures ExactlyOne(Run(m, ws))
    decreases |ws|
  {
    if ws != [] {
      RunKeepsExactlyOne(Apply(m, ws[0]), ws[1..]);
    }
  }

  /** Every settings state reachable from the field initialisers has exactly one mode on. */
  lemma ReachableExactlyOne(ws: seq<SettingsWrite>)
    ensures ExactlyOne(Run(Initial, ws))
  {
    RunKeepsExactlyOne(Initial, ws);
  }

  /** The settings object. Field names follow the source's private fields. */
  class ModSettings {
    var unlockAll: bool
    var extraAtStart: bool
    var milestones: bool
    var contra: bool

    function Value(): Modes
      reads this
    {
      Modes(unlockAll, extraAtStart, milestones, contra)
    }

    constructor ()
      ensures Value() == Initial
    {
      unlockAll, extraAtStart, milestones, contra := true, false, false, false;
    }

    method SetUnlockAll(value: bool)
      modifies this
      decreases if value then 1 else 3
      ensures Value() == UnlockAllSet(old(Value()), value)
    {
      unlockAll := value;
      contra := value;
      if value {
        extraAtStart := false;
        milestones := false;
      }
      EnsureState();
    }

    method SetExtraTilesAtStart(value: bool)
      modifies this
      ensures Value() == ExtraTilesAtStartSet(old(Value()), value)
    {
      extraAtStart := value;
      if value {
        unlockAll := false;
        milestones := false;
      }
      EnsureState();
    }

    method SetAssignToMilestones(value: bool)
      modifies this
      ensures Value() == AssignToMilestonesSet(old(Value()), value)
    {
      milestones := value;
      if value {
        unlockAll := false;
        extraAtStart := false;
      }
      EnsureState();
    }

    /** The value written to the reset button is ignored. */
    method SetResetModSettings(value: bool)
      modifies this
      ensures Value() == ResetSettings(old(Value()))
    {
      SetDefaults();
      contra := unlockAll;
    }

    method SetDefaults()
      modifies this
      ensures Value() == Defaults(old(Value()))
    {
      unlockAll := true;
      extraAtStart := false;
      milestones := false;
    }

    /** Re-enters SetUnlockAll at most once: that call finds unlockAll on. */
    method EnsureState()
      modifies this
      decreases if unlockAll || extraAtStart || milestones then 0 else 2
      ensures Value() == EnsuredState(old(Value()))
    {
      if !unlockAll && !extraAtStart && !milestones {
        SetUnlockAll(true);
      }
    }
  }
}
