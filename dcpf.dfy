/** The DC power-flow routine (`DCPFlowBase`): `run` sets the routine up on
    first use, calls the solver, turns its success flag into an exit code,
    unpacks the result whatever the flag, and reports success as a bool. */
module DCPFlow {
  import opened PyValues
  import DeviceModel
  import SystemState
  import RoutineUnpack

  class DCPFlowBase {
    const className: string
    const sys: SystemState.System
    const vars: seq<RoutineUnpack.RVar>
    /** `var.v` of each routine variable assigned so far, by name. */
    var values: map<string, DeviceModel.Got>
    var isSetup: bool
    var exitCode: int
    /** How often `setup` has run. */
    ghost var setups: nat

    constructor (className: string, sys: SystemState.System, vars: seq<RoutineUnpack.RVar>)
      ensures this.className == className && this.sys == sys && this.vars == vars
      ensures values == map[] && !isSetup && exitCode == 0 && setups == 0
    {
      this.className := className;
      this.sys := sys;
      this.vars := vars;
      values := map[];
      isSetup := false;
      exitCode := 0;
      setups := 0;
    }

    /** `setup`: builds the routine's optimization model (not part of this
        model) and marks the routine as set up. */
    method Setup()
      modifies this`isSetup, this`setups
      ensures isSetup && setups == old(setups) + 1
    {
      isSetup := true;
      setups := setups + 1;
    }

    /** `unpack(res)`: the device writes, the variable loop and the `recent`
        cursor, as `UnpackOutcome` describes them. */
    method Unpack(res: RoutineUnpack.SolverResult) returns (r: Result<bool>)
      requires res.baseMVA != 0.0
      modifies this`values, sys`attrs, sys`recent
      ensures var u := RoutineUnpack.UnpackOutcome(old(sys.attrs), sys.routines, old(sys.recent), className, vars, res);
        && sys.attrs == u.attrs && values == old(values) + u.values && sys.recent == u.recent && r == u.result
    {
      ghost var u := RoutineUnpack.UnpackOutcome(sys.attrs, sys.routines, sys.recent, className, vars, res);
      var err := RoutineUnpack.WriteDevices(sys, res);
      assert sys.attrs == u.attrs;
      if err.Some? {
        return Err(err.value);
      }
      var lp := RoutineUnpack.UnpackVars(sys.attrs, vars);
      assert lp.values == u.values && (lp.err.None? <==> u.copied);
      values := values + lp.values;
      if lp.err.Some? {
        return Err(lp.err.value);
      }
      if className !in sys.routines {
        return Err(NotRegistered(className));
      }
      sys.recent := Some(className);
      return Ok(true);
    }

    /** `run`: `setup` only when not yet set up, then the solver, the exit
        code (0 on success, 1 otherwise), `unpack` whatever the outcome, and
        `True` exactly when the exit code is 0. The solver is a function of
        the system's data. */
    method Run(solve: RoutineUnpack.Attrs -> RoutineUnpack.SolverResult) returns (r: Result<bool>)
      requires solve(sys.attrs).baseMVA != 0.0
      modifies this`isSetup, this`setups, this`exitCode, this`values, sys`attrs, sys`recent
      ensures isSetup && setups == if old(isSetup) then old(setups) else old(setups) + 1
      ensures exitCode == if solve(old(sys.attrs)).success then 0 else 1
      ensures var u := RoutineUnpack.UnpackOutcome(old(sys.attrs), sys.routines, old(sys.recent), className, vars, solve(old(sys.attrs)));
        && sys.attrs == u.attrs && values == old(values) + u.values && sys.recent == u.recent
        && (u.result.Err? ==> r == Err(u.result.error))
        && (u.result.Ok? ==> r == Ok(exitCode == 0))
    {
      if !isSetup {
        Setup();
      }
      var res := solve(sys.attrs);
      exitCode := if res.success then 0 else 1;
      var unpacked := Unpack(res);
      if unpacked.Err? {
        return Err(unpacked.error);
      }
      return Ok(exitCode == 0);
    }
  }
}
