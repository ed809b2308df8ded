/** What `unpack` of the power-flow routines does with a solver result. It
    rebinds the bus voltage magnitudes and angles. It splits the generator
    rows at `Slack.n` between the slack generators and the PV generators,
    scaled to per unit by `baseMVA`. Then it copies system values into the
    routine's variables, one variable at a time, and records the routine as
    the system's most recent one. */
module RoutineUnpack {
  import opened PyValues
  import DeviceModel
  import SystemState

  type Attrs = map<string, SystemState.Entry>

  /** Columns 7 (voltage magnitude) and 8 (voltage angle, degrees) of a row
      of the solver's bus table. */
  datatype BusRow = BusRow(vm: real, va: real)

  /** Columns 1 (active power) and 2 (reactive power) of a row of the
      solver's generator table, in MW and MVAr. */
  datatype GenRow = GenRow(pg: real, qg: real)

  /** The record the external solver returns. */
  datatype SolverResult = SolverResult(success: bool, f: real, baseMVA: real, bus: seq<BusRow>, gen: seq<GenRow>)

  /** `deg2rad`: pi / 180 as the double the program multiplies by. */
  const Deg2Rad: real := 0.017453292519943295

  /** `system.<name>.<src>.v = store`. */
  datatype Write = Write(name: string, src: string, store: DeviceModel.Store)

  /** The system after a run of writes, and the exception that stopped it. */
  datatype Step = Step(attrs: Attrs, err: Option<Error>)

  // ------------------------------------------------------- result columns

  /** A NumPy array of floats. */
  function Reals(xs: seq<real>): (s: DeviceModel.Store)
    ensures s.ArrayStore? && |s.vals| == |xs|
    ensures forall j | 0 <= j < |xs| :: s.vals[j] == Float(xs[j])
  {
    DeviceModel.ArrayStore(seq(|xs|, j requires 0 <= j < |xs| => Float(xs[j])))
  }

  /** `res['bus'][:, 7]` */
  function Magnitudes(rows: seq<BusRow>): (r: seq<real>)
    ensures |r| == |rows| && forall j | 0 <= j < |rows| :: r[j] == rows[j].vm
  {
    seq(|rows|, j requires 0 <= j < |rows| => rows[j].vm)
  }

  /** `res['bus'][:, 8] * deg2rad` */
  function Angles(rows: seq<BusRow>): (r: seq<real>)
    ensures |r| == |rows| && forall j | 0 <= j < |rows| :: r[j] == rows[j].va * Deg2Rad
  {
    seq(|rows|, j requires 0 <= j < |rows| => rows[j].va * Deg2Rad)
  }

  /** `rows[:, 1] / mva` */
  function Active(rows: seq<GenRow>, mva: real): (r: seq<real>)
    requires mva != 0.0
    ensures |r| == |rows| && forall j | 0 <= j < |rows| :: r[j] == rows[j].pg / mva
  {
    seq(|rows|, j requires 0 <= j < |rows| => rows[j].pg / mva)
  }

  /** `rows[:, 2] / mva` */
  function Reactive(rows: seq<GenRow>, mva: real): (r: seq<real>)
    requires mva != 0.0
    ensures |r| == |rows| && forall j | 0 <= j < |rows| :: r[j] == rows[j].qg / mva
  {
    seq(|rows|, j requires 0 <= j < |rows| => rows[j].qg / mva)
  }

  // --------------------------------------------------------- device writes

  /** One attribute assignment: the model and its parameter must exist. */
  function WriteFacet(attrs: Attrs, w: Write): (r: Result<Attrs>)
    ensures r.Ok? <==> w.name in attrs && attrs[w.name].ModelEntry? && w.src in attrs[w.name].m.params
    ensures r.Ok? ==> r.value == SystemState.AssignV(attrs, w.name, w.src, w.store)
  {
    if w.name !in attrs then Err(NoAttribute(w.name))
    else if attrs[w.name].ModelEntry? && w.src in attrs[w.name].m.params then
      Ok(SystemState.AssignV(attrs, w.name, w.src, w.store))
    else Err(NoAttribute(w.name + "." + w.src))
  }

  /** Assignments in program order; the first that raises stops the rest and
      leaves the earlier ones in place. */
  function Apply(attrs: Attrs, ws: seq<Write>): Step
    decreases |ws|
  {
    if ws == [] then Step(attrs, None)
    else match WriteFacet(attrs, ws[0])
      case Err(e) => Step(attrs, Some(e))
      case Ok(a) => Apply(a, ws[1..])
  }

  /** The model `name` has a `v` facet for parameter `src`. */
  predicate HasV(attrs: Attrs, name: string, src: string) {
    name in attrs && attrs[name].ModelEntry? && DeviceModel.HasFacet(attrs[name].m, src, "v")
  }

  function VStore(attrs: Attrs, name: string, src: string): DeviceModel.Store
    requires HasV(attrs, name, src)
  {
    attrs[name].m.params[src]["v"]
  }

  /** Some write of `ws` assigns parameter `src` of model `name`. */
  predicate Touches(ws: seq<Write>, name: string, src: string) {
    exists j :: 0 <= j < |ws| && ws[j].name == name && ws[j].src == src
  }

  /** Some write of `ws` goes to model `name`. */
  predicate Names(ws: seq<Write>, name: string) {
    exists j :: 0 <= j < |ws| && ws[j].name == name
  }

  /** Two views of the same models: the same attributes, the same ids and the
      same parameters; only facet stores may differ. */
  ghost predicate SameShape(a: Attrs, b: Attrs) {
    && a.Keys == b.Keys
    && (forall n | n in a :: a[n].ModelEntry? <==> b[n].ModelEntry?)
    && (forall n | n in a && !a[n].ModelEntry? :: b[n] == a[n])
    && (forall n | n in a && a[n].ModelEntry? ::
          && b[n].m.className == a[n].m.className && b[n].m.group == a[n].m.group
          && b[n].m.idx == a[n].m.idx && b[n].m.uid == a[n].m.uid
          && b[n].m.params.Keys == a[n].m.params.Keys)
  }

  /** A run of writes keeps the shape of the system. */
  lemma {:induction false} ApplyShape(attrs: Attrs, ws: seq<Write>)
    ensures SameShape(attrs, Apply(attrs, ws).attrs)
    decreases |ws|
  {
    if ws != [] && WriteFacet(attrs, ws[0]).Ok? {
      var a := WriteFacet(attrs, ws[0]).value;
      ApplyShape(a, ws[1..]);
      assert SameShape(attrs, a);
    }
  }

  /** A run of writes leaves every model it does not name as it was. */
  lemma {:induction false} ApplyKeepsModels(attrs: Attrs, ws: seq<Write>)
    ensures var b := Apply(attrs, ws).attrs;
      forall n | n in attrs && !Names(ws, n) :: n in b && b[n] == attrs[n]
    decreases |ws|
  {
    if ws != [] && WriteFacet(attrs, ws[0]).Ok? {
      var a := WriteFacet(attrs, ws[0]).value;
      ApplyKeepsModels(a, ws[1..]);
      forall n | n in attrs && !Names(ws, n) ensures n in a && a[n] == attrs[n] && !Names(ws[1..], n) {
        assert ws[0].name != n;
      }
    }
  }

  /** A run of writes leaves every parameter it does not assign as it was. */
  lemma {:induction false} ApplyKeepsParams(attrs: Attrs, ws: seq<Write>)
    ensures SameShape(attrs, Apply(attrs, ws).attrs)
    ensures var b := Apply(attrs, ws).attrs;
      forall n, s | n in attrs && attrs[n].ModelEntry? && s in attrs[n].m.params && !Touches(ws, n, s) ::
        b[n].m.params[s] == attrs[n].m.params[s]
    decreases |ws|
  {
    ApplyShape(attrs, ws);
    if ws != [] && WriteFacet(attrs, ws[0]).Ok? {
      var a := WriteFacet(attrs, ws[0]).value;
      assert SameShape(attrs, a);
      ApplyKeepsParams(a, ws[1..]);
      forall n, s | n in attrs && attrs[n].ModelEntry? && s in attrs[n].m.params && !Touches(ws, n, s)
        ensures a[n].m.params[s] == attrs[n].m.params[s] && !Touches(ws[1..], n, s)
      {
        assert !(ws[0].name == n && ws[0].src == s);
      }
    }
  }

  /** A run of writes keeps the shape of the system, leaves every model it
      does not name as it was, and every parameter it does not assign. */
  lemma ApplyFrame(attrs: Attrs, ws: seq<Write>)
    ensures var b := Apply(attrs, ws).attrs;
      && SameShape(attrs, b)
      && (forall n | n in attrs && !Names(ws, n) :: b[n] == attrs[n])
      && (forall n, s | n in attrs && attrs[n].ModelEntry? && s in attrs[n].m.params && !Touches(ws, n, s) ::
            b[n].m.params[s] == attrs[n].m.params[s])
  {
    ApplyKeepsModels(attrs, ws);
    ApplyKeepsParams(attrs, ws);
  }

  /** After a run of writes that raised nothing, the last write to a
      parameter is what its `v` facet holds. */
  lemma {:induction false} ApplyLands(attrs: Attrs, ws: seq<Write>, k: nat)
    requires Apply(attrs, ws).err.None?
    requires k < |ws|
    requires forall j | k < j < |ws| :: !(ws[j].name == ws[k].name && ws[j].src == ws[k].src)
    ensures HasV(Apply(attrs, ws).attrs, ws[k].name, ws[k].src)
    ensures VStore(Apply(attrs, ws).attrs, ws[k].name, ws[k].src) == ws[k].store
    decreases |ws|
  {
    var a := WriteFacet(attrs, ws[0]).value;
    assert Apply(attrs, ws) == Apply(a, ws[1..]);
    if k == 0 {
      ApplyFrame(a, ws[1..]);
      assert !Touches(ws[1..], ws[0].name, ws[0].src);
      assert HasV(a, ws[0].name, ws[0].src) && VStore(a, ws[0].name, ws[0].src) == ws[0].store;
    } else {
      forall j | k - 1 < j < |ws[1..]|
        ensures !(ws[1..][j].name == ws[1..][k - 1].name && ws[1..][j].src == ws[1..][k - 1].src)
      {
        assert ws[1..][j] == ws[j + 1];
      }
      ApplyLands(a, ws[1..], k - 1);
    }
  }

  /** A run of writes raises nothing when every model and parameter it
      assigns exists. */
  lemma {:induction false} ApplySucceeds(attrs: Attrs, ws: seq<Write>)
    requires forall j | 0 <= j < |ws| ::
      ws[j].name in attrs && attrs[ws[j].name].ModelEntry? && ws[j].src in attrs[ws[j].name].m.params
    ensures Apply(attrs, ws).err.None?
    decreases |ws|
  {
    if ws != [] {
      var a := WriteFacet(attrs, ws[0]).value;
      forall j | 0 <= j < |ws[1..]|
        ensures ws[1..][j].name in a && a[ws[1..][j].name].ModelEntry? && ws[1..][j].src in a[ws[1..][j].name].m.params
      {
        assert ws[1..][j] == ws[j + 1];
      }
      ApplySucceeds(a, ws[1..]);
    }
  }

  /** The bus writes: voltage magnitudes and angles. */
  function BusWrites(res: SolverResult): seq<Write> {
    [Write("Bus", "v", Reals(Magnitudes(res.bus))), Write("Bus", "a", Reals(Angles(res.bus)))]
  }

  /** `system.Slack.n`: the count of the slack model, or of a group of that name. */
  function SlackCount(attrs: Attrs): Result<nat> {
    if "Slack" !in attrs then Err(NoAttribute("Slack"))
    else match attrs["Slack"]
      case ModelEntry(m) => Ok(|m.idx|)
      case GroupEntry(members) => SystemState.GroupCount(attrs, members)
      case OtherEntry => Err(NoAttribute("Slack.n"))
  }

  /** Where the generator rows are cut: `Slack.n`, or the end of the table
      when there are fewer rows (Python slicing). */
  function Cut(n: nat, rows: nat): (c: nat)
    ensures c <= rows && (c == n || c == rows)
  {
    if n < rows then n else rows
  }

  /** The generator writes: rows from `Slack.n` on to the PV generators, the
      rows before it to the slack generators, each scaled by `1 / baseMVA`. */
  function GenWrites(res: SolverResult, n: nat): seq<Write>
    requires res.baseMVA != 0.0
  {
    var c := Cut(n, |res.gen|);
    var pv, slack := res.gen[c..], res.gen[..c];
    [ Write("PV", "p", Reals(Active(pv, res.baseMVA))), Write("PV", "q", Reals(Reactive(pv, res.baseMVA)))
    , Write("Slack", "p", Reals(Active(slack, res.baseMVA))), Write("Slack", "q", Reals(Reactive(slack, res.baseMVA)))
    ]
  }

  /** The device half of `unpack`, in program order: the bus writes, then
      `Slack.n`, then the generator writes. */
  function DeviceWrites(attrs: Attrs, res: SolverResult): Step
    requires res.baseMVA != 0.0
  {
    var s := Apply(attrs, BusWrites(res));
    if s.err.Some? then s
    else match SlackCount(s.attrs)
      case Err(e) => Step(s.attrs, Some(e))
      case Ok(n) => Apply(s.attrs, GenWrites(res, n))
  }

  /** The devices `unpack` writes to. */
  predicate HasCoreDevices(attrs: Attrs) {
    && "Bus" in attrs && attrs["Bus"].ModelEntry? && "v" in attrs["Bus"].m.params && "a" in attrs["Bus"].m.params
    && "PV" in attrs && attrs["PV"].ModelEntry? && "p" in attrs["PV"].m.params && "q" in attrs["PV"].m.params
    && "Slack" in attrs && attrs["Slack"].ModelEntry? && "p" in attrs["Slack"].m.params && "q" in attrs["Slack"].m.params
  }

  /** A run of writes that raised nothing found every model and parameter it
      assigns. */
  lemma {:induction false} ApplyNeeds(attrs: Attrs, ws: seq<Write>)
    requires Apply(attrs, ws).err.None?
    ensures forall j | 0 <= j < |ws| ::
      ws[j].name in attrs && attrs[ws[j].name].ModelEntry? && ws[j].src in attrs[ws[j].name].m.params
    decreases |ws|
  {
    if ws != [] {
      var a := WriteFacet(attrs, ws[0]).value;
      ApplyNeeds(a, ws[1..]);
      forall j | 1 <= j < |ws|
        ensures ws[j].name in attrs && attrs[ws[j].name].ModelEntry? && ws[j].src in attrs[ws[j].name].m.params
      {
        assert ws[j] == ws[1..][j - 1];
      }
    }
  }

  /** The bus writes leave `Slack.n` as it was. */
  lemma SlackCountKept(attrs: Attrs, res: SolverResult)
    ensures SlackCount(Apply(attrs, BusWrites(res)).attrs) == SlackCount(attrs)
  {
    BusFrame(attrs, res);
    var b := Apply(attrs, BusWrites(res)).attrs;
    if "Slack" in attrs && attrs["Slack"].GroupEntry? {
      GroupCountOfShape(attrs, b, attrs["Slack"].members);
    }
  }

  /** The bus writes keep the shape and change only the bus model. */
  lemma BusFrame(attrs: Attrs, res: SolverResult)
    ensures var b := Apply(attrs, BusWrites(res)).attrs;
      && SameShape(attrs, b)
      && forall n | n in attrs && n != "Bus" :: b[n] == attrs[n]
  {
    ApplyFrame(attrs, BusWrites(res));
    forall n | n in attrs && n != "Bus" ensures Apply(attrs, BusWrites(res)).attrs[n] == attrs[n] {
      if Names(BusWrites(res), n) { BusWritesNames(res, n); }
    }
  }

  /** The generator writes keep the shape and change only the PV and slack
      models. */
  lemma GenFrame(attrs: Attrs, res: SolverResult, k: nat)
    requires res.baseMVA != 0.0
    ensures var b := Apply(attrs, GenWrites(res, k)).attrs;
      && SameShape(attrs, b)
      && forall n | n in attrs && n != "PV" && n != "Slack" :: b[n] == attrs[n]
  {
    ApplyFrame(attrs, GenWrites(res, k));
    forall n | n in attrs && n != "PV" && n != "Slack" ensures Apply(attrs, GenWrites(res, k)).attrs[n] == attrs[n] {
      if Names(GenWrites(res, k), n) { GenWritesNames(res, k, n); }
    }
  }


  /** The bus writes raise nothing exactly when the bus model has the
      voltage and angle parameters. */
  lemma BusWritesSucceed(attrs: Attrs, res: SolverResult)
    ensures Apply(attrs, BusWrites(res)).err.None? <==>
      "Bus" in attrs && attrs["Bus"].ModelEntry? && "v" in attrs["Bus"].m.params && "a" in attrs["Bus"].m.params
  {
    var bw := BusWrites(res);
    assert bw[0].name == "Bus" && bw[0].src == "v" && bw[1].name == "Bus" && bw[1].src == "a";
    if Apply(attrs, bw).err.None? {
      ApplyNeeds(attrs, bw);
    } else if "Bus" in attrs && attrs["Bus"].ModelEntry? && "v" in attrs["Bus"].m.params && "a" in attrs["Bus"].m.params {
      ApplySucceeds(attrs, bw);
    }
  }

  /** The generator writes raise nothing exactly when the PV and slack models
      have the power parameters. */
  lemma GenWritesSucceed(attrs: Attrs, res: SolverResult, n: nat)
    requires res.baseMVA != 0.0
    ensures Apply(attrs, GenWrites(res, n)).err.None? <==>
      && "PV" in attrs && attrs["PV"].ModelEntry? && "p" in attrs["PV"].m.params && "q" in attrs["PV"].m.params
      && "Slack" in attrs && attrs["Slack"].ModelEntry? && "p" in attrs["Slack"].m.params && "q" in attrs["Slack"].m.params
  {
    var c, mva := Cut(n, |res.gen|), res.baseMVA;
    var w0 := Write("PV", "p", Reals(Active(res.gen[c..], mva)));
    var w1 := Write("PV", "q", Reals(Reactive(res.gen[c..], mva)));
    var w2 := Write("Slack", "p", Reals(Active(res.gen[..c], mva)));
    var w3 := Write("Slack", "q", Reals(Reactive(res.gen[..c], mva)));
    var ws := [w0, w1, w2, w3];
    assert GenWrites(res, n) == ws;
    var has := && "PV" in attrs && attrs["PV"].ModelEntry? && "p" in attrs["PV"].m.params && "q" in attrs["PV"].m.params
               && "Slack" in attrs && attrs["Slack"].ModelEntry? && "p" in attrs["Slack"].m.params && "q" in attrs["Slack"].m.params;
    if Apply(attrs, ws).err.None? {
      ApplyNeeds(attrs, ws);
      assert ws[0] == w0 && ws[1] == w1 && ws[2] == w2 && ws[3] == w3;
    } else if has {
      forall j | 0 <= j < |ws| ensures ws[j].name in attrs && attrs[ws[j].name].ModelEntry? && ws[j].src in attrs[ws[j].name].m.params {
        assert j == 0 || j == 1 || j == 2 || j == 3;
      }
      ApplySucceeds(attrs, ws);
    }
  }


  /** The device writes raise nothing exactly when the system has the bus,
      PV and slack models with the parameters they assign. */
  lemma DeviceWritesSucceed(attrs: Attrs, res: SolverResult)
    requires res.baseMVA != 0.0
    ensures DeviceWrites(attrs, res).err.None? <==> HasCoreDevices(attrs)
  {
    var s := Apply(attrs, BusWrites(res));
    BusWritesSucceed(attrs, res);
    ApplyFrame(attrs, BusWrites(res));
    SlackCountKept(attrs, res);
    if s.err.None? && SlackCount(s.attrs).Ok? {
      GenWritesSucceed(s.attrs, res, SlackCount(s.attrs).value);
    }
  }

  /** After the device writes, the bus stores hold the solver's voltage
      magnitudes and its angles in radians. */
  lemma BusWritesLand(attrs: Attrs, res: SolverResult)
    requires res.baseMVA != 0.0
    requires DeviceWrites(attrs, res).err.None?
    ensures var b := DeviceWrites(attrs, res).attrs;
      && HasV(b, "Bus", "v") && HasV(b, "Bus", "a")
      && VStore(b, "Bus", "v").vals == Reals(Magnitudes(res.bus)).vals
      && VStore(b, "Bus", "a").vals == Reals(Angles(res.bus)).vals
  {
    var s := Apply(attrs, BusWrites(res));
    var n := SlackCount(s.attrs).value;
    BusLandsFirst(attrs, res);
    GenKeepsBus(s.attrs, res, n);
    assert DeviceWrites(attrs, res).attrs == Apply(s.attrs, GenWrites(res, n)).attrs;
  }

  /** The bus writes alone land. */
  lemma BusLandsFirst(attrs: Attrs, res: SolverResult)
    requires Apply(attrs, BusWrites(res)).err.None?
    ensures var a := Apply(attrs, BusWrites(res)).attrs;
      && HasV(a, "Bus", "v") && HasV(a, "Bus", "a")
      && VStore(a, "Bus", "v") == Reals(Magnitudes(res.bus))
      && VStore(a, "Bus", "a") == Reals(Angles(res.bus))
  {
    ApplyLands(attrs, BusWrites(res), 0);
    ApplyLands(attrs, BusWrites(res), 1);
  }

  /** The generator writes leave the bus model as it was. */
  lemma GenKeepsBus(attrs: Attrs, res: SolverResult, n: nat)
    requires res.baseMVA != 0.0
    requires "Bus" in attrs
    ensures "Bus" in Apply(attrs, GenWrites(res, n)).attrs
    ensures Apply(attrs, GenWrites(res, n)).attrs["Bus"] == attrs["Bus"]
  {
    ApplyFrame(attrs, GenWrites(res, n));
    if Names(GenWrites(res, n), "Bus") {
      GenWritesNames(res, n, "Bus");
    }
  }

  /** Four writes to four different parameters that all succeed each land. */
  lemma FourLand(attrs: Attrs, w0: Write, w1: Write, w2: Write, w3: Write)
    requires Apply(attrs, [w0, w1, w2, w3]).err.None?
    requires forall j, k | 0 <= j < k < 4 ::
      !([w0, w1, w2, w3][j].name == [w0, w1, w2, w3][k].name && [w0, w1, w2, w3][j].src == [w0, w1, w2, w3][k].src)
    ensures var b := Apply(attrs, [w0, w1, w2, w3]).attrs;
      && HasV(b, w0.name, w0.src) && VStore(b, w0.name, w0.src) == w0.store
      && HasV(b, w1.name, w1.src) && VStore(b, w1.name, w1.src) == w1.store
      && HasV(b, w2.name, w2.src) && VStore(b, w2.name, w2.src) == w2.store
      && HasV(b, w3.name, w3.src) && VStore(b, w3.name, w3.src) == w3.store
  {
    var ws := [w0, w1, w2, w3];
    ApplyLands(attrs, ws, 0);
    ApplyLands(attrs, ws, 1);
    ApplyLands(attrs, ws, 2);
    ApplyLands(attrs, ws, 3);
  }

  /** After the device writes the generator rows are split at `Slack.n`:
      the slack stores then the PV stores list every generator row exactly
      once, in order, each divided by `baseMVA`. */
  lemma GenWritesLand(attrs: Attrs, res: SolverResult)
    requires res.baseMVA != 0.0
    requires DeviceWrites(attrs, res).err.None?
    ensures SlackCount(attrs).Ok?
    ensures var b, mva := DeviceWrites(attrs, res).attrs, res.baseMVA;
      && HasV(b, "PV", "p") && HasV(b, "PV", "q") && HasV(b, "Slack", "p") && HasV(b, "Slack", "q")
      && |VStore(b, "Slack", "p").vals| == Cut(SlackCount(attrs).value, |res.gen|)
      && VStore(b, "Slack", "p").vals + VStore(b, "PV", "p").vals == Reals(Active(res.gen, mva)).vals
      && VStore(b, "Slack", "q").vals + VStore(b, "PV", "q").vals == Reals(Reactive(res.gen, mva)).vals
  {
    var s := Apply(attrs, BusWrites(res));
    SlackCountKept(attrs, res);
    var n := SlackCount(s.attrs).value;
    assert DeviceWrites(attrs, res) == Apply(s.attrs, GenWrites(res, n));
    GenLands(s.attrs, res, n);
    SplitRows(res.gen, Cut(n, |res.gen|), res.baseMVA);
  }

  /** The generator writes alone land: the PV stores get the rows from the
      cut on, the slack stores the rows before it. */
  lemma GenLands(attrs: Attrs, res: SolverResult, n: nat)
    requires res.baseMVA != 0.0
    requires Apply(attrs, GenWrites(res, n)).err.None?
    ensures var b, c, mva := Apply(attrs, GenWrites(res, n)).attrs, Cut(n, |res.gen|), res.baseMVA;
      && HasV(b, "PV", "p") && VStore(b, "PV", "p") == Reals(Active(res.gen[c..], mva))
      && HasV(b, "PV", "q") && VStore(b, "PV", "q") == Reals(Reactive(res.gen[c..], mva))
      && HasV(b, "Slack", "p") && VStore(b, "Slack", "p") == Reals(Active(res.gen[..c], mva))
      && HasV(b, "Slack", "q") && VStore(b, "Slack", "q") == Reals(Reactive(res.gen[..c], mva))
  {
    var c, mva := Cut(n, |res.gen|), res.baseMVA;
    var w0 := Write("PV", "p", Reals(Active(res.gen[c..], mva)));
    var w1 := Write("PV", "q", Reals(Reactive(res.gen[c..], mva)));
    var w2 := Write("Slack", "p", Reals(Active(res.gen[..c], mva)));
    var w3 := Write("Slack", "q", Reals(Reactive(res.gen[..c], mva)));
    assert GenWrites(res, n) == [w0, w1, w2, w3];
    FourLand(attrs, w0, w1, w2, w3);
  }

  /** The bus writes name only the bus model. */
  lemma BusWritesNames(res: SolverResult, n: string)
    requires Names(BusWrites(res), n)
    ensures n == "Bus"
  {
    var j :| 0 <= j < |BusWrites(res)| && BusWrites(res)[j].name == n;
  }

  /** The generator writes name only the PV and slack models. */
  lemma GenWritesNames(res: SolverResult, count: nat, n: string)
    requires res.baseMVA != 0.0
    requires Names(GenWrites(res, count), n)
    ensures n == "PV" || n == "Slack"
  {
    var ws := GenWrites(res, count);
    var j :| 0 <= j < |ws| && ws[j].name == n;
    assert ws[0].name == "PV" && ws[1].name == "PV" && ws[2].name == "Slack" && ws[3].name == "Slack";
  }

  /** The device writes touch only the bus, PV and slack models, and keep
      every model's ids and parameters. */
  lemma DeviceWritesFrame(attrs: Attrs, res: SolverResult)
    requires res.baseMVA != 0.0
    ensures var b := DeviceWrites(attrs, res).attrs;
      && SameShape(attrs, b)
      && forall n | n in attrs && n != "Bus" && n != "PV" && n != "Slack" :: b[n] == attrs[n]
  {
    var s := Apply(attrs, BusWrites(res));
    BusFrame(attrs, res);
    if s.err.None? && SlackCount(s.attrs).Ok? {
      var k := SlackCount(s.attrs).value;
      var b := Apply(s.attrs, GenWrites(res, k)).attrs;
      assert DeviceWrites(attrs, res).attrs == b;
      GenFrame(s.attrs, res, k);
    }
  }


  /** An array of the concatenation is the concatenation of the arrays. */
  lemma RealsAppend(xs: seq<real>, ys: seq<real>)
    ensures Reals(xs).vals + Reals(ys).vals == Reals(xs + ys).vals
  {
    assert forall j | 0 <= j < |xs + ys| :: (Reals(xs).vals + Reals(ys).vals)[j] == Float((xs + ys)[j]);
  }

  /** Cutting the generator table and scaling each part is scaling the whole
      table. */
  lemma SplitRows(rows: seq<GenRow>, c: nat, mva: real)
    requires c <= |rows| && mva != 0.0
    ensures Reals(Active(rows[..c], mva)).vals + Reals(Active(rows[c..], mva)).vals == Reals(Active(rows, mva)).vals
    ensures Reals(Reactive(rows[..c], mva)).vals + Reals(Reactive(rows[c..], mva)).vals == Reals(Reactive(rows, mva)).vals
  {
    assert rows == rows[..c] + rows[c..];
    assert Active(rows[..c], mva) + Active(rows[c..], mva) == Active(rows, mva);
    assert Reactive(rows[..c], mva) + Reactive(rows[c..], mva) == Reactive(rows, mva);
    RealsAppend(Active(rows[..c], mva), Active(rows[c..], mva));
    RealsAppend(Reactive(rows[..c], mva), Reactive(rows[c..], mva));
  }

  /** Per-unit values times `baseMVA` are the solver's MW and MVAr values. */
  lemma ScaledBack(rows: seq<GenRow>, mva: real)
    requires mva != 0.0
    ensures forall j | 0 <= j < |rows| ::
      Reals(Active(rows, mva)).vals[j].x * mva == rows[j].pg && Reals(Reactive(rows, mva)).vals[j].x * mva == rows[j].qg
  {
    forall j | 0 <= j < |rows|
      ensures Reals(Active(rows, mva)).vals[j].x * mva == rows[j].pg && Reals(Reactive(rows, mva)).vals[j].x * mva == rows[j].qg
    {
      assert rows[j].pg / mva * mva == rows[j].pg;
      assert rows[j].qg / mva * mva == rows[j].qg;
    }
  }

  /** Group counts only look at member ids, which rebinding keeps. */
  lemma {:induction false} GroupCountOfShape(a: Attrs, b: Attrs, members: seq<string>)
    requires SameShape(a, b)
    ensures SystemState.GroupCount(a, members) == SystemState.GroupCount(b, members)
  {
    if members != [] {
      GroupCountOfShape(a, b, members[1..]);
      var x := members[0];
      if x in a && a[x].ModelEntry? {
        assert SystemState.Member(a, x).value.idx == SystemState.Member(b, x).value.idx;
      }
    }
  }

  /** `system.<w.name>.<w.src>.v = w.store` as one statement. */
  method Rebind(sys: SystemState.System, w: Write) returns (err: Option<Error>)
    modifies sys`attrs
    ensures Step(sys.attrs, err) == Apply(old(sys.attrs), [w])
  {
    match WriteFacet(sys.attrs, w)
    case Err(e) =>
      err := Some(e);
    case Ok(a) =>
      assert [w][1..] == [];
      sys.attrs := a;
      err := None;
  }

  /** The device half of `unpack` as the six assignments of the program. */
  method WriteDevices(sys: SystemState.System, res: SolverResult) returns (err: Option<Error>)
    requires res.baseMVA != 0.0
    modifies sys`attrs
    ensures Step(sys.attrs, err) == DeviceWrites(old(sys.attrs), res)
  {
    err := WriteBus(sys, res);
    if err.Some? { return; }
    var n := SlackCount(sys.attrs);
    if n.Err? {
      err := Some(n.error);
      return;
    }
    err := WriteGens(sys, res, n.value);
  }

  /** `system.Bus.v.v = ...; system.Bus.a.v = ...` */
  method WriteBus(sys: SystemState.System, res: SolverResult) returns (err: Option<Error>)
    modifies sys`attrs
    ensures Step(sys.attrs, err) == Apply(old(sys.attrs), BusWrites(res))
  {
    var w0, w1 := Write("Bus", "v", Reals(Magnitudes(res.bus))), Write("Bus", "a", Reals(Angles(res.bus)));
    assert BusWrites(res) == [w0, w1];
    ghost var a0 := sys.attrs;
    err := Rebind(sys, w0);
    ApplyStep(a0, [w0, w1]);
    if err.Some? { return; }
    err := Rebind(sys, w1);
  }

  /** The PV and slack assignments, in program order. */
  method WriteGens(sys: SystemState.System, res: SolverResult, n: nat) returns (err: Option<Error>)
    requires res.baseMVA != 0.0
    modifies sys`attrs
    ensures Step(sys.attrs, err) == Apply(old(sys.attrs), GenWrites(res, n))
  {
    var c, mva := Cut(n, |res.gen|), res.baseMVA;
    var w0 := Write("PV", "p", Reals(Active(res.gen[c..], mva)));
    var w1 := Write("PV", "q", Reals(Reactive(res.gen[c..], mva)));
    var w2 := Write("Slack", "p", Reals(Active(res.gen[..c], mva)));
    var w3 := Write("Slack", "q", Reals(Reactive(res.gen[..c], mva)));
    assert GenWrites(res, n) == [w0, w1, w2, w3];
    ghost var a0 := sys.attrs;
    err := Rebind(sys, w0);
    ApplyStep(a0, [w0, w1, w2, w3]);
    if err.Some? { return; }
    ghost var a1 := sys.attrs;
    err := Rebind(sys, w1);
    ApplyStep(a1, [w1, w2, w3]);
    if err.Some? { return; }
    ghost var a2 := sys.attrs;
    err := Rebind(sys, w2);
    ApplyStep(a2, [w2, w3]);
    if err.Some? { return; }
    err := Rebind(sys, w3);
  }

  /** The first write of a run either raises, which ends the run, or leaves
      the rest of the run to apply to the system it produced. */
  lemma ApplyStep(attrs: Attrs, ws: seq<Write>)
    requires ws != []
    ensures Apply(attrs, [ws[0]]).err.Some? ==> Apply(attrs, ws) == Apply(attrs, [ws[0]])
    ensures Apply(attrs, [ws[0]]).err.None? ==> Apply(attrs, ws) == Apply(Apply(attrs, [ws[0]]).attrs, ws[1..])
  {
    assert [ws[0]][1..] == [];
  }


  // ------------------------------------------------------ variable copying

  /** A routine variable: its name, the system attribute that owns it, and
      the owner's parameter it copies (`None` for no source). */
  datatype RVar = RVar(name: string, ownerName: string, src: Option<string>)

  /** What one turn of the variable loop does. */
  datatype Action = Skip | Assign(got: DeviceModel.Got) | Abort(error: Error)

  /** A model owner: the ids of the model's group
      (`getattr(system, owner.group).get_idx()`), read from the model. */
  function ModelRead(attrs: Attrs, m: DeviceModel.Model, src: string): Action
  {
    if m.group !in attrs then Abort(NoAttribute(m.group))
    else match attrs[m.group]
      case GroupEntry(members) =>
        (match SystemState.GroupGetIdx(attrs, members)
         case Err(e) => Abort(e)
         case Ok(ids) =>
           match DeviceModel.Get(m, src, DeviceModel.Many(DeviceModel.Items(DeviceModel.Listed(ids))), "v", false, Float(0.0))
           case Ok(g) => Assign(g)
           case Err(e) => Abort(e))
      case _ => Abort(NoAttribute(m.group + ".get_idx"))
  }

  /** One turn of the loop: the owner is looked up first; a variable without
      a source is skipped; a model owner reads its group's ids, a group owner
      gathers its own; any other owner is skipped with a warning. */
  function VarAction(attrs: Attrs, v: RVar): Action
  {
    if v.ownerName !in attrs then Abort(NoAttribute(v.ownerName))
    else if v.src.None? then Skip
    else match attrs[v.ownerName]
      case ModelEntry(m) => ModelRead(attrs, m, v.src.value)
      case GroupEntry(members) =>
        (match SystemState.GroupGather(attrs, members, v.src)
         case Ok(vals) => Assign(DeviceModel.Values(vals))
         case Err(e) => Abort(e))
      case OtherEntry => Skip
  }

  /** The values the loop assigned, by variable name, and the exception that
      stopped it. */
  datatype Loop = Loop(values: map<string, DeviceModel.Got>, err: Option<Error>)

  /** The variable loop over `vars` in order; an exception ends it. */
  function VarsOutcome(attrs: Attrs, vars: seq<RVar>): Loop
    decreases |vars|
  {
    if vars == [] then Loop(map[], None)
    else
      var prev := VarsOutcome(attrs, vars[..|vars| - 1]);
      var v := vars[|vars| - 1];
      if prev.err.Some? then prev
      else match VarAction(attrs, v)
        case Skip => prev
        case Assign(g) => Loop(prev.values[v.name := g], None)
        case Abort(e) => Loop(prev.values, Some(e))
  }

  /** The skip rules: a missing owner raises; with an owner, a variable
      without a source, or whose owner is neither a model nor a group, is
      skipped. */
  lemma SkipRules(attrs: Attrs, v: RVar)
    ensures v.ownerName !in attrs ==> VarAction(attrs, v) == Abort(NoAttribute(v.ownerName))
    ensures v.ownerName in attrs && (v.src.None? || attrs[v.ownerName].OtherEntry?) ==> VarAction(attrs, v) == Skip
  {
  }

  /** A model owner whose group lists only ids of the model reads its store
      at the positions of those ids, in the group's order. */
  lemma ModelOwnerReads(attrs: Attrs, v: RVar)
    requires v.ownerName in attrs && attrs[v.ownerName].ModelEntry? && v.src.Some?
    requires var m := attrs[v.ownerName].m;
      && DeviceModel.Sized(m) && DeviceModel.HasFacet(m, v.src.value, "v")
      && m.group in attrs && attrs[m.group].GroupEntry?
      && SystemState.GroupGetIdx(attrs, attrs[m.group].members).Ok?
      && forall j | 0 <= j < |SystemState.GroupGetIdx(attrs, attrs[m.group].members).value| ::
           Canon(SystemState.GroupGetIdx(attrs, attrs[m.group].members).value[j]) in m.uid
           && m.uid[Canon(SystemState.GroupGetIdx(attrs, attrs[m.group].members).value[j])] < |m.idx|
    ensures var m := attrs[v.ownerName].m;
      var ids, store := SystemState.GroupGetIdx(attrs, attrs[m.group].members).value, m.params[v.src.value]["v"];
      var a := VarAction(attrs, v);
      && a.Assign? && a.got.Values? && |a.got.vs| == |ids|
      && forall j | 0 <= j < |ids| :: a.got.vs[j] == store.vals[m.uid[Canon(ids[j])]]
  {
    var m := attrs[v.ownerName].m;
    var ids := SystemState.GroupGetIdx(attrs, attrs[m.group].members).value;
    var os := DeviceModel.Listed(ids);
    DeviceModel.FlatIds(m, os);
    var us := DeviceModel.Idx2Uid(m, DeviceModel.Many(DeviceModel.Items(os))).value.us;
    assert forall j | 0 <= j < |ids| :: us[j] == Some(m.uid[Canon(ids[j])]);
    assert None !in us;
  }

  /** A model owner whose group also lists an id the model does not have
      (a device of another member model) makes the loop raise the KeyError
      of the model. */
  lemma ForeignIdAborts(attrs: Attrs, v: RVar)
    requires v.ownerName in attrs && attrs[v.ownerName].ModelEntry? && v.src.Some?
    requires var m := attrs[v.ownerName].m;
      && m.group in attrs && attrs[m.group].GroupEntry?
      && SystemState.GroupGetIdx(attrs, attrs[m.group].members).Ok?
      && exists j | 0 <= j < |SystemState.GroupGetIdx(attrs, attrs[m.group].members).value| ::
           Canon(SystemState.GroupGetIdx(attrs, attrs[m.group].members).value[j]) !in m.uid
    ensures VarAction(attrs, v).Abort?
    ensures VarAction(attrs, v).error.DeviceNotExist? && VarAction(attrs, v).error.model == attrs[v.ownerName].m.className
  {
    var m := attrs[v.ownerName].m;
    var ids := SystemState.GroupGetIdx(attrs, attrs[m.group].members).value;
    var os := DeviceModel.Listed(ids);
    DeviceModel.FlatIds(m, os);
    var j :| 0 <= j < |ids| && Canon(ids[j]) !in m.uid;
    assert os[j] == Some(ids[j]);
  }

  /** A group owner in a well-formed system gets the values gathered over
      its members, one per device of the group. */
  lemma GroupOwnerGathers(attrs: Attrs, v: RVar)
    requires SystemState.WellFormed(attrs)
    requires v.ownerName in attrs && attrs[v.ownerName].GroupEntry? && v.src.Some?
    requires SystemState.GroupGather(attrs, attrs[v.ownerName].members, v.src).Ok?
    ensures var vals := SystemState.GroupGather(attrs, attrs[v.ownerName].members, v.src).value;
      && VarAction(attrs, v) == Assign(DeviceModel.Values(vals))
      && SystemState.GroupCount(attrs, attrs[v.ownerName].members).Ok?
      && |vals| == SystemState.GroupCount(attrs, attrs[v.ownerName].members).value
  {
    SystemState.GatherMatchesCount(attrs, attrs[v.ownerName].members, v.src);
  }

  /** Once the loop has raised, later variables change nothing. */
  lemma {:induction false} ErrorSticks(attrs: Attrs, vars: seq<RVar>, k: nat)
    requires k <= |vars|
    requires VarsOutcome(attrs, vars[..k]).err.Some?
    ensures VarsOutcome(attrs, vars) == VarsOutcome(attrs, vars[..k])
    decreases |vars| - k
  {
    if k < |vars| {
      var n := |vars| - 1;
      assert vars[..n][..k] == vars[..k];
      ErrorSticks(attrs, vars[..n], k);
    } else {
      assert vars[..k] == vars;
    }
  }

  /** A skipped variable is as if it were not there: for every list of
      variables, removing one the loop skips changes neither the values
      assigned nor the outcome. */
  lemma {:induction false} SkipIsTransparent(attrs: Attrs, p: seq<RVar>, x: RVar, q: seq<RVar>)
    requires VarAction(attrs, x) == Skip
    ensures VarsOutcome(attrs, p + [x] + q) == VarsOutcome(attrs, p + q)
    decreases |q|
  {
    if q == [] {
      assert (p + [x] + q)[..|p|] == p;
      assert p + q == p;
    } else {
      var q' := q[..|q| - 1];
      SkipIsTransparent(attrs, p, x, q');
      assert (p + [x] + q)[..|p + [x] + q| - 1] == p + [x] + q';
      assert (p + q)[..|p + q| - 1] == p + q';
    }
  }

  /** The loop stops at the first variable that raises, with that exception,
      keeping what the earlier variables assigned. */
  lemma FirstAbortStops(attrs: Attrs, vars: seq<RVar>, j: nat)
    requires j < |vars| && VarAction(attrs, vars[j]).Abort?
    requires forall i | 0 <= i < j :: !VarAction(attrs, vars[i]).Abort?
    ensures VarsOutcome(attrs, vars) ==
      Loop(VarsOutcome(attrs, vars[..j]).values, Some(VarAction(attrs, vars[j]).error))
  {
    NoAbortPrefix(attrs, vars[..j]);
    assert vars[..j + 1][..j] == vars[..j];
    ErrorSticks(attrs, vars, j + 1);
  }

  /** Without a raising variable the loop runs to the end. */
  lemma {:induction false} NoAbortPrefix(attrs: Attrs, vars: seq<RVar>)
    requires forall i | 0 <= i < |vars| :: !VarAction(attrs, vars[i]).Abort?
    ensures VarsOutcome(attrs, vars).err.None?
    decreases |vars|
  {
    if vars != [] {
      NoAbortPrefix(attrs, vars[..|vars| - 1]);
    }
  }

  /** No later variable of `vars` has the name of variable `j`. */
  predicate LastOfName(vars: seq<RVar>, j: nat)
    requires j < |vars|
  {
    forall i | j < i < |vars| :: vars[i].name != vars[j].name
  }

  /** Without a raising variable, every variable the loop assigns ends up
      with what its owner gives, unless a later variable of the same name
      overwrites it. */
  lemma {:induction false} NoAbortAssignsAll(attrs: Attrs, vars: seq<RVar>)
    requires forall i | 0 <= i < |vars| :: !VarAction(attrs, vars[i]).Abort?
    ensures VarsOutcome(attrs, vars).err.None?
    ensures forall j | 0 <= j < |vars| && VarAction(attrs, vars[j]).Assign? && LastOfName(vars, j) ::
      vars[j].name in VarsOutcome(attrs, vars).values &&
      VarsOutcome(attrs, vars).values[vars[j].name] == VarAction(attrs, vars[j]).got
    decreases |vars|
  {
    NoAbortPrefix(attrs, vars);
    if vars != [] {
      var n := |vars| - 1;
      var pre := vars[..n];
      NoAbortAssignsAll(attrs, pre);
      var prev := VarsOutcome(attrs, pre);
      var last := VarAction(attrs, vars[n]);
      var out := VarsOutcome(attrs, vars);
      assert out.values == if last.Assign? then prev.values[vars[n].name := last.got] else prev.values;
      forall j | 0 <= j < |vars| && VarAction(attrs, vars[j]).Assign? && LastOfName(vars, j)
        ensures vars[j].name in out.values && out.values[vars[j].name] == VarAction(attrs, vars[j]).got
      {
        if j < n {
          assert vars[j] == pre[j];
          assert LastOfName(pre, j);
          assert vars[n].name != vars[j].name;
        }
      }
    }
  }

  /** The loop assigns only variables whose turn assigns. */
  lemma {:induction false} OnlyAssignedNames(attrs: Attrs, vars: seq<RVar>)
    ensures forall k | k in VarsOutcome(attrs, vars).values ::
      exists j :: 0 <= j < |vars| && vars[j].name == k && VarAction(attrs, vars[j]).Assign?
    decreases |vars|
  {
    if vars != [] {
      var n := |vars| - 1;
      var pre := vars[..n];
      OnlyAssignedNames(attrs, pre);
      forall k | k in VarsOutcome(attrs, vars).values
        ensures exists j :: 0 <= j < |vars| && vars[j].name == k && VarAction(attrs, vars[j]).Assign?
      {
        if k == vars[n].name && VarAction(attrs, vars[n]).Assign? {
        } else {
          assert k in VarsOutcome(attrs, pre).values;
          var j :| 0 <= j < |pre| && pre[j].name == k && VarAction(attrs, pre[j]).Assign?;
          assert vars[j] == pre[j];
        }
      }
    }
  }

  /** The variable loop as the program runs it. */
  method UnpackVars(attrs: Attrs, vars: seq<RVar>) returns (out: Loop)
    ensures out == VarsOutcome(attrs, vars)
  {
    var values: map<string, DeviceModel.Got> := map[];
    var i := 0;
    while i < |vars|
      invariant 0 <= i <= |vars|
      invariant VarsOutcome(attrs, vars[..i]) == Loop(values, None)
    {
      var v := vars[i];
      assert vars[..i + 1][..i] == vars[..i];
      match VarAction(attrs, v) {
        case Skip =>
        case Assign(g) =>
          values := values[v.name := g];
        case Abort(e) =>
          ErrorSticks(attrs, vars, i + 1);
          return Loop(values, Some(e));
      }
      i := i + 1;
    }
    assert vars[..i] == vars;
    return Loop(values, None);
  }

  // -------------------------------------------------------------- unpack

  /** The outcome of `unpack`: the system, the values assigned to routine
      variables, whether the variable loop ran to its end, the system's
      `recent` routine, and the return value or the exception. */
  datatype Unpacked = Unpacked(
    attrs: Attrs,
    values: map<string, DeviceModel.Got>,
    copied: bool,
    recent: Option<string>,
    result: Result<bool>)

  /** `unpack` of routine `className`: the device writes, the variable loop,
      then `system.recent = system.routines[className]`. */
  function UnpackOutcome(attrs: Attrs, routines: set<string>, recent: Option<string>,
                         className: string, vars: seq<RVar>, res: SolverResult): (u: Unpacked)
    requires res.baseMVA != 0.0
    ensures u.attrs == DeviceWrites(attrs, res).attrs
    ensures u.copied <==> DeviceWrites(attrs, res).err.None? && VarsOutcome(u.attrs, vars).err.None?
    ensures u.result.Ok? <==> u.copied && className in routines
    ensures u.result.Ok? ==> u.result.value && u.recent == Some(className)
    ensures u.result.Err? ==> u.recent == recent
    ensures DeviceWrites(attrs, res).err.Some? ==> u.values == map[] && u.result == Err(DeviceWrites(attrs, res).err.value)
    ensures DeviceWrites(attrs, res).err.None? ==> u.values == VarsOutcome(u.attrs, vars).values
  {
    var dw := DeviceWrites(attrs, res);
    if dw.err.Some? then Unpacked(dw.attrs, map[], false, recent, Err(dw.err.value))
    else
      var lp := VarsOutcome(dw.attrs, vars);
      if lp.err.Some? then Unpacked(dw.attrs, lp.values, false, recent, Err(lp.err.value))
      else if className in routines then Unpacked(dw.attrs, lp.values, true, Some(className), Ok(true))
      else Unpacked(dw.attrs, lp.values, true, recent, Err(NotRegistered(className)))
  }

  /** An unpack that reached the copy step left the solver's voltages in the
      bus stores and its generator powers, per unit, split between the slack
      and PV stores at the slack count. */
  lemma UnpackedStores(attrs: Attrs, routines: set<string>, recent: Option<string>,
                       className: string, vars: seq<RVar>, res: SolverResult)
    requires res.baseMVA != 0.0
    requires UnpackOutcome(attrs, routines, recent, className, vars, res).copied
    ensures SlackCount(attrs).Ok?
    ensures var b, mva := UnpackOutcome(attrs, routines, recent, className, vars, res).attrs, res.baseMVA;
      && HasV(b, "Bus", "v") && HasV(b, "Bus", "a")
      && VStore(b, "Bus", "v").vals == Reals(Magnitudes(res.bus)).vals
      && VStore(b, "Bus", "a").vals == Reals(Angles(res.bus)).vals
      && HasV(b, "PV", "p") && HasV(b, "PV", "q") && HasV(b, "Slack", "p") && HasV(b, "Slack", "q")
      && |VStore(b, "Slack", "p").vals| == Cut(SlackCount(attrs).value, |res.gen|)
      && VStore(b, "Slack", "p").vals + VStore(b, "PV", "p").vals == Reals(Active(res.gen, mva)).vals
      && VStore(b, "Slack", "q").vals + VStore(b, "PV", "q").vals == Reals(Reactive(res.gen, mva)).vals
  {
    BusWritesLand(attrs, res);
    GenWritesLand(attrs, res);
  }
}
