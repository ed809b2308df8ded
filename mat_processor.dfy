/** The bus selection of `MatProcessor.make`: the PTDF matrix (computed by
    an external routine, here a sequence of columns, one per bus position)
    is split into the columns of the generator buses and the columns of all
    other buses. */
module MatProcessor {
  import opened PyValues
  import DeviceModel
  import SystemState
  import ListFlatten

  /** `regBus`: the generator buses, one per generator, in generator order,
      numeric ids cast with `int`. */
  function RegBus(genBus: seq<Scalar>): (r: seq<Scalar>)
    ensures |r| == |genBus|
    ensures forall j | 0 <= j < |genBus| :: r[j] == IntCast(genBus[j])
  {
    seq(|genBus|, j requires 0 <= j < |genBus| => IntCast(genBus[j]))
  }

  /** `redBus`: the buses of the bus table that are not generator buses, in
      bus-table order, numeric ids cast with `int`. */
  function RedBus(allBus: seq<Scalar>, genBus: seq<Scalar>): (r: seq<Scalar>)
    ensures |r| <= |allBus|
    ensures forall x | x in r :: exists i :: 0 <= i < |allBus| && !PyIn(allBus[i], genBus) && x == IntCast(allBus[i])
  {
    if allBus == [] then []
    else
      var last := allBus[|allBus| - 1];
      RedBus(allBus[..|allBus| - 1], genBus) + (if PyIn(last, genBus) then [] else [IntCast(last)])
  }

  /** The bus-table positions that survive the filter, in increasing order. */
  ghost function Kept(allBus: seq<Scalar>, genBus: seq<Scalar>): seq<nat>
  {
    if allBus == [] then []
    else
      var n := |allBus| - 1;
      Kept(allBus[..n], genBus) + (if PyIn(allBus[n], genBus) then [] else [n])
  }

  /** Entry `j` of `redBus` is the cast of the bus at the `j`-th kept
      position, and kept positions are increasing table positions. */
  lemma {:induction false} KeptInOrder(allBus: seq<Scalar>, genBus: seq<Scalar>)
    ensures var kept, red := Kept(allBus, genBus), RedBus(allBus, genBus);
      && |red| == |kept|
      && (forall j | 0 <= j < |kept| :: kept[j] < |allBus| && red[j] == IntCast(allBus[kept[j]]))
      && (forall j, k | 0 <= j < k < |kept| :: kept[j] < kept[k])
  {
    if allBus != [] {
      var n := |allBus| - 1;
      var pre := allBus[..n];
      KeptInOrder(pre, genBus);
      var kp, rp := Kept(pre, genBus), RedBus(pre, genBus);
      var keep := !PyIn(allBus[n], genBus);
      var kept, red := Kept(allBus, genBus), RedBus(allBus, genBus);
      assert kept == kp + (if keep then [n] else []);
      assert red == rp + (if keep then [IntCast(allBus[n])] else []);
      forall j | 0 <= j < |kp| ensures kept[j] == kp[j] < n && red[j] == rp[j] == IntCast(allBus[kp[j]]) {
        assert pre[kp[j]] == allBus[kp[j]];
      }
    }
  }

  /** Position `i` is kept exactly when bus `i` is not a generator bus. */
  lemma {:induction false} KeptExactly(allBus: seq<Scalar>, genBus: seq<Scalar>)
    ensures forall i | 0 <= i < |allBus| :: i in Kept(allBus, genBus) <==> !PyIn(allBus[i], genBus)
  {
    if allBus != [] {
      var n := |allBus| - 1;
      var pre := allBus[..n];
      KeptExactly(pre, genBus);
      KeptInOrder(pre, genBus);
      var kp := Kept(pre, genBus);
      var kept := Kept(allBus, genBus);
      assert kept == kp + (if PyIn(allBus[n], genBus) then [] else [n]);
      forall i | 0 <= i < |allBus| ensures i in kept <==> !PyIn(allBus[i], genBus) {
        if i < n {
          assert pre[i] == allBus[i];
          assert i in kept <==> i in kp;
        } else {
          assert i !in kp;
        }
      }
    }
  }

  /** `redBus` is the bus table restricted to the positions not on a
      generator bus: position `i` is kept exactly when bus `i` is not a
      generator bus, kept positions stay in increasing order, and entry `j`
      of `redBus` is the cast of the bus at the `j`-th kept position. */
  lemma RedBusInTableOrder(allBus: seq<Scalar>, genBus: seq<Scalar>)
    ensures var kept, red := Kept(allBus, genBus), RedBus(allBus, genBus);
      && |red| == |kept|
      && (forall j | 0 <= j < |kept| :: kept[j] < |allBus| && red[j] == IntCast(allBus[kept[j]]))
      && (forall j, k | 0 <= j < k < |kept| :: kept[j] < kept[k])
      && (forall i | 0 <= i < |allBus| :: i in kept <==> !PyIn(allBus[i], genBus))
  {
    KeptInOrder(allBus, genBus);
    KeptExactly(allBus, genBus);
  }

  /** `Bus.idx2uid(ids)` for a list of ids: the bus positions, or the
      KeyError of the first id missing from the bus table. */
  function BusUids(bus: DeviceModel.Model, ids: seq<Scalar>): (r: Result<seq<nat>>)
    ensures r.Ok? <==> forall j | 0 <= j < |ids| :: Canon(ids[j]) in bus.uid
    ensures r.Ok? ==> |r.value| == |ids| && forall j | 0 <= j < |ids| :: r.value[j] == bus.uid[Canon(ids[j])]
    ensures r.Err? ==> exists j :: 0 <= j < |ids| && Canon(ids[j]) !in bus.uid
                                && r.error == DeviceNotExist(bus.className, ids[j])
  {
    var os := seq(|ids|, j requires 0 <= j < |ids| => Some(ids[j]));
    DeviceModel.FlatIds(bus, os);
    assert forall j | 0 <= j < |ids| :: os[j] == Some(ids[j]);
    match DeviceModel.Idx2Uid(bus, DeviceModel.Many(DeviceModel.Items(os)))
    case Err(e) => Err(e)
    case Ok(uids) =>
      assert forall j | 0 <= j < |ids| :: uids.us[j].Some?;
      Ok(seq(|ids|, j requires 0 <= j < |ids| => uids.us[j].value))
  }

  /** `PTDF[:, us]`: the columns at the given bus positions, in that order. */
  function Columns<C>(ptdf: seq<C>, us: seq<nat>): (r: Result<seq<C>>)
    ensures r.Ok? <==> forall j | 0 <= j < |us| :: us[j] < |ptdf|
    ensures r.Err? ==> r.error == IndexError
    ensures r.Ok? ==> |r.value| == |us| && forall j | 0 <= j < |us| :: r.value[j] == ptdf[us[j]]
  {
    if forall j | 0 <= j < |us| :: us[j] < |ptdf| then Ok(seq(|us|, j requires 0 <= j < |us| => ptdf[us[j]]))
    else Err(IndexError)
  }

  /** Every id of `ids` is a bus of the table, at a position below `n`. */
  predicate Resolves(bus: DeviceModel.Model, ids: seq<Scalar>, n: nat) {
    forall j | 0 <= j < |ids| :: Canon(ids[j]) in bus.uid && bus.uid[Canon(ids[j])] < n
  }

  /** The selection part of `make`: the generator-bus columns and the other
      columns of the PTDF, or the KeyError of a generator bus missing from
      the bus table. */
  function Partition<C>(bus: DeviceModel.Model, genBus: seq<Scalar>, ptdf: seq<C>): (r: Result<(seq<C>, seq<C>)>)
    ensures r.Ok? ==>
      var reg, red := RegBus(genBus), RedBus(bus.idx, genBus);
      && |r.value.0| == |genBus| && |r.value.1| == |red|
      && (forall j | 0 <= j < |reg| :: Canon(reg[j]) in bus.uid && bus.uid[Canon(reg[j])] < |ptdf| && r.value.0[j] == ptdf[bus.uid[Canon(reg[j])]])
      && (forall j | 0 <= j < |red| :: Canon(red[j]) in bus.uid && bus.uid[Canon(red[j])] < |ptdf| && r.value.1[j] == ptdf[bus.uid[Canon(red[j])]])
    ensures Resolves(bus, RegBus(genBus), |ptdf|) && Resolves(bus, RedBus(bus.idx, genBus), |ptdf|) ==> r.Ok?
    ensures var reg, red := RegBus(genBus), RedBus(bus.idx, genBus);
      (exists j :: 0 <= j < |reg| && Canon(reg[j]) !in bus.uid) || (exists j :: 0 <= j < |red| && Canon(red[j]) !in bus.uid)
      ==> r.Err? && r.error.DeviceNotExist? && r.error.model == bus.className
    ensures var reg, red := RegBus(genBus), RedBus(bus.idx, genBus);
      (&& (forall j | 0 <= j < |reg| :: Canon(reg[j]) in bus.uid)
       && (forall j | 0 <= j < |red| :: Canon(red[j]) in bus.uid)
       && r.Err?) ==> r.error == IndexError
  {
    var reg, red := RegBus(genBus), RedBus(bus.idx, genBus);
    match (BusUids(bus, reg), BusUids(bus, red))
    case (Err(e), _) => Err(e)
    case (_, Err(e)) => Err(e)
    case (Ok(ru), Ok(du)) =>
      match (Columns(ptdf, ru), Columns(ptdf, du))
      case (Ok(c1), Ok(c2)) => Ok((c1, c2))
      case (Err(e), _) => Err(e)
      case (_, Err(e)) => Err(e)
  }

  /** On a well-formed bus table whose ids `int()` leaves alone, every other
      bus resolves to a position of the table. */
  lemma RedColumnsExist(bus: DeviceModel.Model, genBus: seq<Scalar>)
    requires DeviceModel.Indexed(bus)
    requires forall i | 0 <= i < |bus.idx| :: CastStable(bus.idx[i])
    ensures var red := RedBus(bus.idx, genBus);
      forall j | 0 <= j < |red| :: Canon(red[j]) in bus.uid && bus.uid[Canon(red[j])] < |bus.idx|
  {
    RedUidsAreKept(bus, genBus);
    KeptInOrder(bus.idx, genBus);
  }

  /** On a well-formed bus table an id has a column exactly when it is `in`
      the table, and that column is a position of the table. */
  lemma InTableExactly(bus: DeviceModel.Model, x: Scalar)
    requires DeviceModel.Indexed(bus)
    ensures Canon(x) in bus.uid <==> PyIn(x, bus.idx)
    ensures Canon(x) in bus.uid ==> bus.uid[Canon(x)] < |bus.idx|
  {
    if Canon(x) in bus.uid {
      assert PyEq(x, bus.idx[bus.uid[Canon(x)]]);
    }
    if PyIn(x, bus.idx) {
      var i :| 0 <= i < |bus.idx| && PyEq(x, bus.idx[i]);
    }
  }

  /** Every generator bus in the table: the selection succeeds. */
  lemma GenBusesFound<C>(bus: DeviceModel.Model, genBus: seq<Scalar>, ptdf: seq<C>)
    requires DeviceModel.Indexed(bus)
    requires forall i | 0 <= i < |bus.idx| :: CastStable(bus.idx[i])
    requires |ptdf| >= |bus.idx|
    requires forall j | 0 <= j < |genBus| :: PyIn(IntCast(genBus[j]), bus.idx)
    ensures Partition(bus, genBus, ptdf).Ok?
  {
    var reg := RegBus(genBus);
    RedColumnsExist(bus, genBus);
    assert Resolves(bus, RedBus(bus.idx, genBus), |ptdf|);
    assert Resolves(bus, reg, |ptdf|) by {
      forall j | 0 <= j < |reg| ensures Canon(reg[j]) in bus.uid && bus.uid[Canon(reg[j])] < |ptdf| {
        InTableExactly(bus, reg[j]);
      }
    }
  }

  /** A generator bus missing from the table: the selection fails. */
  lemma GenBusMissing<C>(bus: DeviceModel.Model, genBus: seq<Scalar>, ptdf: seq<C>, j: nat)
    requires DeviceModel.Indexed(bus)
    requires j < |genBus| && !PyIn(IntCast(genBus[j]), bus.idx)
    ensures Partition(bus, genBus, ptdf).Err?
  {
    InTableExactly(bus, RegBus(genBus)[j]);
  }

  /** On a well-formed bus table whose ids `int()` leaves alone, and a PTDF
      with a column per bus, the selection succeeds exactly when every
      generator's cast bus is in the bus table. */
  lemma PartitionSucceeds<C>(bus: DeviceModel.Model, genBus: seq<Scalar>, ptdf: seq<C>)
    requires DeviceModel.Indexed(bus)
    requires forall i | 0 <= i < |bus.idx| :: CastStable(bus.idx[i])
    requires |ptdf| >= |bus.idx|
    ensures Partition(bus, genBus, ptdf).Ok? <==> forall j | 0 <= j < |genBus| :: PyIn(IntCast(genBus[j]), bus.idx)
  {
    if forall j | 0 <= j < |genBus| :: PyIn(IntCast(genBus[j]), bus.idx) {
      GenBusesFound(bus, genBus, ptdf);
    } else {
      var j :| 0 <= j < |genBus| && !PyIn(IntCast(genBus[j]), bus.idx);
      GenBusMissing(bus, genBus, ptdf, j);
    }
  }

  /** `make` on a system: the generator buses are the `bus` values gathered
      over the `StaticGen` group, the bus table is the `Bus` model. The
      attributes are looked up, and the gather made, in the source's order. */
  function Make<C>(attrs: map<string, SystemState.Entry>, ptdf: seq<C>): (r: Result<(seq<C>, seq<C>)>)
    ensures !("StaticGen" in attrs && attrs["StaticGen"].GroupEntry?) ==> r == Err(NoAttribute("StaticGen"))
    ensures "StaticGen" in attrs && attrs["StaticGen"].GroupEntry? ==>
      var gen := SystemState.GroupGather(attrs, attrs["StaticGen"].members, Some("bus"));
      && (gen.Err? ==> r == Err(gen.error))
      && (gen.Ok? && !("Bus" in attrs && attrs["Bus"].ModelEntry?) ==> r == Err(NoAttribute("Bus")))
      && (gen.Ok? && "Bus" in attrs && attrs["Bus"].ModelEntry? ==> r == Partition(attrs["Bus"].m, gen.value, ptdf))
  {
    if "StaticGen" !in attrs || !attrs["StaticGen"].GroupEntry? then Err(NoAttribute("StaticGen"))
    else match SystemState.GroupGather(attrs, attrs["StaticGen"].members, Some("bus"))
      case Err(e) => Err(e)
      case Ok(genBus) =>
        if "Bus" !in attrs || !attrs["Bus"].ModelEntry? then Err(NoAttribute("Bus"))
        else Partition(attrs["Bus"].m, genBus, ptdf)
  }

  /** On a system whose generators all have a `bus` store, whose bus table
      is well formed with ids `int()` leaves alone, and a PTDF with a column
      per bus, `make` succeeds exactly when every generator's cast bus is in
      the bus table. */
  lemma MakeSucceeds<C>(attrs: map<string, SystemState.Entry>, ptdf: seq<C>)
    requires "StaticGen" in attrs && attrs["StaticGen"].GroupEntry?
    requires SystemState.HasSource(attrs, attrs["StaticGen"].members, "bus")
    requires "Bus" in attrs && attrs["Bus"].ModelEntry?
    requires DeviceModel.Indexed(attrs["Bus"].m)
    requires forall i | 0 <= i < |attrs["Bus"].m.idx| :: CastStable(attrs["Bus"].m.idx[i])
    requires |ptdf| >= |attrs["Bus"].m.idx|
    ensures var genBus := ListFlatten.Flatten(SystemState.Stores(attrs, attrs["StaticGen"].members, "bus"));
      Make(attrs, ptdf).Ok? <==> forall j | 0 <= j < |genBus| :: PyIn(IntCast(genBus[j]), attrs["Bus"].m.idx)
  {
    var members := attrs["StaticGen"].members;
    var gen := SystemState.GroupGather(attrs, members, Some("bus"));
    SystemState.GatherIsConcatenation(attrs, members, Some("bus"));
    if members == [] {
      assert SystemState.Stores(attrs, members, "bus") == [];
    }
    assert gen.value == ListFlatten.Flatten(SystemState.Stores(attrs, members, "bus"));
    PartitionSucceeds(attrs["Bus"].m, gen.value, ptdf);
  }

  /** With ids that `int()` leaves on their key, no bus is both a generator
      bus and another bus. */
  lemma NoBusInBoth(allBus: seq<Scalar>, genBus: seq<Scalar>)
    requires forall j | 0 <= j < |genBus| :: CastStable(genBus[j])
    requires forall i | 0 <= i < |allBus| :: CastStable(allBus[i])
    ensures forall x, y | x in RegBus(genBus) && y in RedBus(allBus, genBus) :: !PyEq(x, y)
  {
    RedBusInTableOrder(allBus, genBus);
    var kept, red, reg := Kept(allBus, genBus), RedBus(allBus, genBus), RegBus(genBus);
    forall x, y | x in reg && y in red ensures !PyEq(x, y) {
      var j :| 0 <= j < |reg| && reg[j] == x;
      var k :| 0 <= k < |red| && red[k] == y;
      var b := allBus[kept[k]];
      CastKeepsKey(genBus[j]);
      CastKeepsKey(b);
      assert !PyIn(b, genBus);
      if PyEq(x, y) {
        assert PyEq(b, genBus[j]);
        assert false;
      }
    }
  }

  /** The other buses map back onto the kept bus-table positions. */
  lemma RedUidsAreKept(bus: DeviceModel.Model, genBus: seq<Scalar>)
    requires DeviceModel.Indexed(bus)
    requires forall i | 0 <= i < |bus.idx| :: CastStable(bus.idx[i])
    ensures BusUids(bus, RedBus(bus.idx, genBus)).Ok?
    ensures BusUids(bus, RedBus(bus.idx, genBus)).value == Kept(bus.idx, genBus)
  {
    var all := bus.idx;
    var red, kept := RedBus(all, genBus), Kept(all, genBus);
    RedBusInTableOrder(all, genBus);
    forall j | 0 <= j < |red| ensures Canon(red[j]) in bus.uid && bus.uid[Canon(red[j])] == kept[j] {
      CastKeepsKey(all[kept[j]]);
      assert Canon(red[j]) == Canon(all[kept[j]]);
    }
  }

  /** Each generator-bus column is the position of that generator's bus. */
  lemma RegUidsMatch(bus: DeviceModel.Model, genBus: seq<Scalar>)
    requires DeviceModel.Indexed(bus)
    requires forall j | 0 <= j < |genBus| :: CastStable(genBus[j])
    requires BusUids(bus, RegBus(genBus)).Ok?
    ensures var ru := BusUids(bus, RegBus(genBus)).value;
      |ru| == |genBus| && forall j | 0 <= j < |genBus| :: ru[j] < |bus.idx| && PyEq(bus.idx[ru[j]], genBus[j])
  {
    var reg, ru := RegBus(genBus), BusUids(bus, RegBus(genBus)).value;
    forall j | 0 <= j < |genBus| ensures ru[j] < |bus.idx| && PyEq(bus.idx[ru[j]], genBus[j]) {
      CastKeepsKey(genBus[j]);
      assert ru[j] == bus.uid[Canon(reg[j])];
    }
  }

  /** A bus position is among the generator-bus positions exactly when its
      bus is a generator bus. */
  lemma RegUidsExactly(bus: DeviceModel.Model, genBus: seq<Scalar>)
    requires DeviceModel.Indexed(bus)
    requires forall j | 0 <= j < |genBus| :: CastStable(genBus[j])
    requires BusUids(bus, RegBus(genBus)).Ok?
    ensures var ru := BusUids(bus, RegBus(genBus)).value;
      forall i | 0 <= i < |bus.idx| :: i in ru <==> PyIn(bus.idx[i], genBus)
  {
    var all := bus.idx;
    RegUidsMatch(bus, genBus);
    var ru := BusUids(bus, RegBus(genBus)).value;
    forall i | 0 <= i < |all| && i in ru ensures PyIn(all[i], genBus) {
      var j :| 0 <= j < |ru| && ru[j] == i;
      assert PyEq(all[i], genBus[j]);
    }
    forall i | 0 <= i < |all| && PyIn(all[i], genBus) ensures i in ru {
      var j :| 0 <= j < |genBus| && PyEq(all[i], genBus[j]);
      assert Canon(all[ru[j]]) == Canon(all[i]);
      assert ru[j] == i;
    }
  }

  /** Every bus of the table is selected exactly once: either among the
      generator-bus columns or, once, among the other columns, so the two
      column slices together cover the whole PTDF. */
  lemma EveryBusColumnOnce(bus: DeviceModel.Model, genBus: seq<Scalar>)
    requires DeviceModel.Indexed(bus)
    requires forall j | 0 <= j < |genBus| :: CastStable(genBus[j])
    requires forall i | 0 <= i < |bus.idx| :: CastStable(bus.idx[i])
    requires BusUids(bus, RegBus(genBus)).Ok?
    ensures BusUids(bus, RedBus(bus.idx, genBus)).Ok?
    ensures var ru, du := BusUids(bus, RegBus(genBus)).value, BusUids(bus, RedBus(bus.idx, genBus)).value;
      && (forall i | 0 <= i < |bus.idx| :: (i in ru) != (i in du))
      && (forall u | u in ru + du :: u < |bus.idx|)
      && (forall j, k | 0 <= j < k < |du| :: du[j] != du[k])
  {
    var all := bus.idx;
    KeptInOrder(all, genBus);
    KeptExactly(all, genBus);
    RedUidsAreKept(bus, genBus);
    RegUidsMatch(bus, genBus);
    RegUidsExactly(bus, genBus);
    var ru, du := BusUids(bus, RegBus(genBus)).value, BusUids(bus, RedBus(all, genBus)).value;
    assert du == Kept(all, genBus);
  }
}
