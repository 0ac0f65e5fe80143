/** Central storage of signal values with a per-signal unit contract
    (src/core/signal_store.cpp). */
module SignalStores {
  import opened Types

  const DIMENSIONLESS: string := "dimensionless"

  /** A stored value with its unit; the default signal is 0.0, dimensionless. */
  datatype Signal = Signal(value: real, unit: string)

  const DEFAULT_SIGNAL: Signal := Signal(0.0, DIMENSIONLESS)

  /** A write or validation whose unit differs from the declared one. */
  datatype StoreError = UnitMismatch(id: SignalId, expected: string, got: string)

  /** The empty unit stands for "dimensionless"; every other unit is kept. */
  function NormalizeUnit(unit: string): (r: string)
    ensures r != ""
    ensures unit != "" ==> r == unit
    ensures unit == "" ==> r == DIMENSIONLESS
  {
    if unit == "" then DIMENSIONLESS else unit
  }

  /** The declared-unit table after the declaration step of a write: the first
      write with a unit other than "dimensionless" declares that unit. */
  function DeclareOnWrite(declared: map<SignalId, string>, id: SignalId, unit: string): (d: map<SignalId, string>)
    ensures d.Keys == declared.Keys + (if NormalizeUnit(unit) != DIMENSIONLESS then {id} else {})
    ensures forall k :: k in declared ==> d[k] == declared[k]
    ensures id in d ==> (id in declared || d[id] == NormalizeUnit(unit))
    ensures id in d && id !in declared ==> d[id] != DIMENSIONLESS
  {
    var u := NormalizeUnit(unit);
    if id !in declared && u != DIMENSIONLESS then declared[id := u] else declared
  }

  /** The declaration step never creates a mismatch: after it, a write is
      refused exactly when a different unit had already been declared. */
  lemma DeclareOnWriteMismatch(declared: map<SignalId, string>, id: SignalId, unit: string)
    ensures var d := DeclareOnWrite(declared, id, unit);
      (id in d && d[id] != NormalizeUnit(unit)) <==> (id in declared && declared[id] != NormalizeUnit(unit))
  {
  }

  class SignalStore {
    var signals: map<SignalId, Signal>
    var physicsDriven: set<SignalId>
    var declaredUnits: map<SignalId, string>

    /** Nothing is ever stored under INVALID_SIGNAL and stored units are normalised. */
    ghost predicate Valid()
      reads this
    {
      && INVALID_SIGNAL !in signals
      && forall id :: id in signals ==> signals[id].unit != ""
    }

    constructor ()
      ensures Valid()
      ensures signals == map[] && physicsDriven == {} && declaredUnits == map[]
    {
      signals, physicsDriven, declaredUnits := map[], {}, map[];
    }

    /** Stores `value` under `id` with the normalised unit, declaring the unit
        on the first non-dimensionless write; a write whose unit differs from
        the declared one fails and changes nothing; INVALID_SIGNAL is ignored. */
    method Write(id: SignalId, value: real, unit: string) returns (outcome: Outcome<StoreError>)
      requires Valid()
      modifies this
      ensures Valid()
      ensures physicsDriven == old(physicsDriven)
      ensures id == INVALID_SIGNAL ==> outcome == Pass && unchanged(this)
      ensures id != INVALID_SIGNAL ==> (outcome.Fail? <==> old(ValidateUnit(id, unit)).Fail?)
      ensures outcome.Fail? ==> unchanged(this)
      ensures outcome.Fail? ==> outcome.error == UnitMismatch(id, old(declaredUnits)[id], NormalizeUnit(unit))
      ensures outcome.Pass? && id != INVALID_SIGNAL ==>
        && signals == old(signals)[id := Signal(value, NormalizeUnit(unit))]
        && declaredUnits == DeclareOnWrite(old(declaredUnits), id, unit)
        && Read(id) == Signal(value, NormalizeUnit(unit))
    {
      if id == INVALID_SIGNAL {
        return Pass;
      }
      var u := NormalizeUnit(unit);
      if id !in declaredUnits && u != DIMENSIONLESS {
        declaredUnits := declaredUnits[id := u];
      }
      if id in declaredUnits && declaredUnits[id] != u {
        return Fail(UnitMismatch(id, declaredUnits[id], u));
      }
      signals := signals[id := Signal(value, u)];
      outcome := Pass;
    }

    /** The stored signal, or the default for an unwritten or invalid id. */
    function Read(id: SignalId): (s: Signal)
      reads this
      requires Valid()
      ensures id != INVALID_SIGNAL && id in signals ==> s == signals[id]
      ensures id == INVALID_SIGNAL || id !in signals ==> s == DEFAULT_SIGNAL
      ensures s.unit != ""
    {
      if id == INVALID_SIGNAL then DEFAULT_SIGNAL
      else if id in signals then signals[id]
      else DEFAULT_SIGNAL
    }

    function ReadValue(id: SignalId): (v: real)
      reads this
      requires Valid()
      ensures v == Read(id).value
      ensures id !in signals ==> v == 0.0
    {
      Read(id).value
    }

    function IsPhysicsDriven(id: SignalId): (b: bool)
      reads this
      ensures b <==> id in physicsDriven
    {
      id in physicsDriven
    }

    /** Adds or removes only `id` in the physics-driven set. */
    method MarkPhysicsDriven(id: SignalId, driven: bool)
      requires Valid()
      modifies this
      ensures Valid()
      ensures signals == old(signals) && declaredUnits == old(declaredUnits)
      ensures physicsDriven == if driven then old(physicsDriven) + {id} else old(physicsDriven) - {id}
      ensures IsPhysicsDriven(id) == driven
      ensures forall other :: other != id ==> IsPhysicsDriven(other) == old(IsPhysicsDriven(other))
    {
      if driven {
        physicsDriven := physicsDriven + {id};
      } else {
        physicsDriven := physicsDriven - {id};
      }
    }

    /** Declares (or re-declares) the expected unit, as given, without normalising it. */
    method DeclareUnit(id: SignalId, expectedUnit: string)
      requires Valid()
      modifies this
      ensures Valid()
      ensures signals == old(signals) && physicsDriven == old(physicsDriven)
      ensures declaredUnits == old(declaredUnits)[id := expectedUnit]
    {
      declaredUnits := declaredUnits[id := expectedUnit];
    }

    /** Fails exactly when a unit is declared for `id` and differs from the
        normalised `unit`; never changes anything. */
    function ValidateUnit(id: SignalId, unit: string): (r: Outcome<StoreError>)
      reads this
      ensures r.Fail? <==> id in declaredUnits && declaredUnits[id] != NormalizeUnit(unit)
      ensures r.Fail? ==> r.error == UnitMismatch(id, declaredUnits[id], NormalizeUnit(unit))
    {
      var u := NormalizeUnit(unit);
      if id in declaredUnits && declaredUnits[id] != u then Fail(UnitMismatch(id, declaredUnits[id], u))
      else Pass
    }

    function Size(): (n: nat)
      reads this
      ensures n == |signals.Keys|
    {
      |signals|
    }

    /** Assigning a default-constructed store over this one: no values, no
        declared units, no physics flags. */
    method Reinit()
      modifies this
      ensures Valid()
      ensures signals == map[] && physicsDriven == {} && declaredUnits == map[]
    {
      signals, physicsDriven, declaredUnits := map[], {}, map[];
    }

    /** Empties values and physics flags but keeps the declared units, so the
        unit contract survives. */
    method Clear()
      requires Valid()
      modifies this
      ensures Valid()
      ensures signals == map[] && physicsDriven == {} && declaredUnits == old(declaredUnits)
      ensures forall id, u :: ValidateUnit(id, u) == old(ValidateUnit(id, u))
      ensures forall id :: Read(id) == DEFAULT_SIGNAL
    {
      signals := map[];
      physicsDriven := {};
    }
  }
}
