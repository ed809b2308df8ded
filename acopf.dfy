/** The AC optimal power-flow routine (`ACOPFBase`): like the DC power flow,
    but its result also carries the objective value, and `run` returns the
    integer exit code. */
module ACOPFlow {
  import opened PyValues
  import DeviceModel
  import SystemState
  import RoutineUnpack

  /** `int(1 - success)` */
  function ExitCode(success: bool): (c: int)
    ensures c == 0 <==> success
    ensures 0 <= c <= 1
  {
    1 - (if success then 1 else 0)
  }

  class ACOPFBase {
    const className: string
    const sys: SystemState.System
    const ralgebs: seq<RoutineUnpack.RVar>
    /** `ralgeb.v` of each routine algebraic variable assigned so far. */
    var values: map<string, DeviceModel.Got>
    /** `obj.v` */
    var objective: Option<real>
    var isSetup: bool
    var exitCode: int
    ghost var setups: nat

    constructor (className: string, sys: SystemState.System, ralgebs: seq<RoutineUnpack.RVar>)
      ensures this.className == className && this.sys == sys && this.ralgebs == ralgebs
      ensures values == map[] && objective == None && !isSetup && exitCode == 0 && setups == 0
    {
      this.className := className;
      this.sys := sys;
      this.ralgebs := ralgebs;
      values := map[];
      objective := None;
      isSetup := false;
      exitCode := 0;
      setups := 0;
    }

    method Setup()
      modifies this`isSetup, this`setups
      ensures isSetup && setups == old(setups) + 1
    {
      isSetup := true;
      setups := setups + 1;
    }

    /** `unpack(res)`: as for the DC power flow, and once the variable loop
        has run to its end the objective value is the solver's `f`. */
    method Unpack(res: RoutineUnpack.SolverResult) returns (r: Result<bool>)
      requires res.baseMVA != 0.0
      modifies this`values, this`objective, sys`attrs, sys`recent
      ensures var u := RoutineUnpack.UnpackOutcome(old(sys.attrs), sys.routines, old(sys.recent), className, ralgebs, res);
        && sys.attrs == u.attrs && values == old(values) + u.values && sys.recent == u.recent && r == u.result
        && objective == if u.copied then Some(res.f) else old(objective)
    {
      ghost var u := RoutineUnpack.UnpackOutcome(sys.attrs, sys.routines, sys.recent, className, ralgebs, res);
      var err := RoutineUnpack.WriteDevices(sys, res);
      assert sys.attrs == u.attrs;
      if err.Some? {
        return Err(err.value);
      }
      var lp := RoutineUnpack.UnpackVars(sys.attrs, ralgebs);
      assert lp.values == u.values && (lp.err.None? <==> u.copied);
      values := values + lp.values;
      if lp.err.Some? {
        return Err(lp.err.value);
      }
      objective := Some(res.f);
      if className !in sys.routines {
        return Err(NotRegistered(className));
      }
      sys.recent := Some(className);
      return Ok(true);
    }

    /** `run`: `setup` only when not yet set up, then the solver, the exit
        code `1 - success`, `unpack` whatever the outcome, and the exit code
        itself as the return value. */
    method Run(solve: RoutineUnpack.Attrs -> RoutineUnpack.SolverResult) returns (r: Result<int>)
      requires solve(sys.attrs).baseMVA != 0.0
      modifies this`isSetup, this`setups, this`exitCode, this`values, this`objective, sys`attrs, sys`recent
      ensures isSetup && setups == if old(isSetup) then old(setups) else old(setups) + 1
      ensures exitCode == ExitCode(solve(old(sys.attrs)).success)
      ensures var u := RoutineUnpack.UnpackOutcome(old(sys.attrs), sys.routines, old(sys.recent), className, ralgebs, solve(old(sys.attrs)));
        && sys.attrs == u.attrs && values == old(values) + u.values && sys.recent == u.recent
        && objective == (if u.copied then Some(solve(old(sys.attrs)).f) else old(objective))
        && (u.result.Err? ==> r == Err(u.result.error))
        && (u.result.Ok? ==> r == Ok(exitCode))
    {
      if !isSetup {
        Setup();
      }
      var res := solve(sys.attrs);
      exitCode := ExitCode(res.success);
      var unpacked := Unpack(res);
      if unpacked.Err? {
        return Err(unpacked.error);
      }
      return Ok(exitCode);
    }
  }
}
