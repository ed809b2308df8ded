/** The system that routines and parameters are bound to, as an arena: its
    attributes by name (device models, device groups and anything else),
    the routines registered on it and the `recent` cursor. A group is
    represented by the names of its member models, in registration order. */
module SystemState {
  import opened PyValues
  import DeviceModel
  import ListFlatten

  datatype Entry =
    | ModelEntry(m: DeviceModel.Model)
    | GroupEntry(members: seq<string>)
    | OtherEntry

  /** Every model of the system keeps `uid` in step with `idx` and one entry
      per device in each store. */
  ghost predicate WellFormed(attrs: map<string, Entry>) {
    forall name | name in attrs && attrs[name].ModelEntry? ::
      DeviceModel.Indexed(attrs[name].m) && DeviceModel.Sized(attrs[name].m)
  }

  /** The member `name` of a group, which must be a device model. */
  function Member(attrs: map<string, Entry>, name: string): (r: Result<DeviceModel.Model>)
    ensures r.Ok? <==> name in attrs && attrs[name].ModelEntry?
    ensures r.Ok? ==> r.value == attrs[name].m
  {
    if name in attrs && attrs[name].ModelEntry? then Ok(attrs[name].m) else Err(NoAttribute(name))
  }

  /** A group's device count `n`: the members' counts added up. */
  function GroupCount(attrs: map<string, Entry>, members: seq<string>): (r: Result<nat>)
    ensures r.Ok? <==> forall j | 0 <= j < |members| :: Member(attrs, members[j]).Ok?
  {
    if members == [] then Ok(0)
    else match (Member(attrs, members[0]), GroupCount(attrs, members[1..]))
      case (Ok(m), Ok(n)) => Ok(|m.idx| + n)
      case (Err(e), _) => Err(e)
      case (_, Err(e)) => Err(e)
  }

  /** A group's `get_idx()`: the members' `idx` lists, concatenated in member
      order. */
  function GroupGetIdx(attrs: map<string, Entry>, members: seq<string>): (r: Result<seq<Scalar>>)
    ensures r.Ok? <==> GroupCount(attrs, members).Ok?
    ensures r.Ok? ==> |r.value| == GroupCount(attrs, members).value
  {
    if members == [] then Ok([])
    else match (Member(attrs, members[0]), GroupGetIdx(attrs, members[1..]))
      case (Ok(m), Ok(rest)) => Ok(m.idx + rest)
      case (Err(e), _) => Err(e)
      case (_, Err(e)) => Err(e)
  }

  /** Every member is a device model with a `v` facet for parameter `src`. */
  predicate HasSource(attrs: map<string, Entry>, members: seq<string>, src: string) {
    forall j | 0 <= j < |members| ::
      members[j] in attrs && attrs[members[j]].ModelEntry? && DeviceModel.HasFacet(attrs[members[j]].m, src, "v")
  }

  /** The members' `v` stores of `src`, in member order. */
  function Stores(attrs: map<string, Entry>, members: seq<string>, src: string): (vs: seq<seq<Scalar>>)
    requires HasSource(attrs, members, src)
    ensures |vs| == |members|
    ensures forall j | 0 <= j < |members| :: vs[j] == attrs[members[j]].m.params[src]["v"].vals
  {
    seq(|members|, j requires 0 <= j < |members| => attrs[members[j]].m.params[src]["v"].vals)
  }

  /** A group's `get(src, idx=get_idx())`: the members' `v` stores of `src`,
      concatenated in member order. */
  function GroupGather(attrs: map<string, Entry>, members: seq<string>, src: Option<string>): (r: Result<seq<Scalar>>)
    ensures src.None? && members != [] ==> r == Err(TypeError)
    ensures r.Ok? ==> GroupCount(attrs, members).Ok?
    ensures members == [] ==> r == Ok([])
  {
    if members == [] then Ok([])
    else if src.None? then Err(TypeError)
    else match (Member(attrs, members[0]), GroupGather(attrs, members[1..], src))
      case (Ok(m), Ok(rest)) =>
        if DeviceModel.HasFacet(m, src.value, "v") then Ok(m.params[src.value]["v"].vals + rest)
        else Err(NoAttribute(src.value))
      case (Err(e), _) => Err(e)
      case (_, Err(e)) => Err(e)
  }

  /** A gather succeeds exactly when the group is empty, or `src` is given
      and every member is a model with that parameter's `v` store; it then
      gives the members' stores concatenated in member order. */
  lemma {:induction false} GatherIsConcatenation(attrs: map<string, Entry>, members: seq<string>, src: Option<string>)
    ensures GroupGather(attrs, members, src).Ok? <==> members == [] || (src.Some? && HasSource(attrs, members, src.value))
    ensures GroupGather(attrs, members, src).Ok? && src.Some? ==>
      GroupGather(attrs, members, src).value == ListFlatten.Flatten(Stores(attrs, members, src.value))
  {
    if members != [] && src.Some? {
      GatherIsConcatenation(attrs, members[1..], src);
      if HasSource(attrs, members, src.value) {
        assert Stores(attrs, members, src.value)[1..] == Stores(attrs, members[1..], src.value);
      }
    }
  }

  /** In a well-formed system a group's gathered values line up with its
      id list and its count. */
  lemma {:induction false} GatherMatchesCount(attrs: map<string, Entry>, members: seq<string>, src: Option<string>)
    requires WellFormed(attrs)
    requires GroupGather(attrs, members, src).Ok?
    ensures |GroupGather(attrs, members, src).value| == GroupCount(attrs, members).value
  {
    if members != [] {
      GatherMatchesCount(attrs, members[1..], src);
    }
  }

  /** `system.<name>.<src>.v = store`: rebinds the `v` facet of one parameter
      of one model; every other attribute, parameter, facet and the model's
      index are left as they were. */
  function AssignV(attrs: map<string, Entry>, name: string, src: string, store: DeviceModel.Store): (r: map<string, Entry>)
    requires name in attrs && attrs[name].ModelEntry? && src in attrs[name].m.params
    ensures r.Keys == attrs.Keys
    ensures forall other | other in attrs && other != name :: r[other] == attrs[other]
    ensures r[name].ModelEntry?
    ensures r[name].m.className == attrs[name].m.className && r[name].m.group == attrs[name].m.group
    ensures r[name].m.idx == attrs[name].m.idx && r[name].m.uid == attrs[name].m.uid
    ensures r[name].m.params.Keys == attrs[name].m.params.Keys
    ensures forall s | s in attrs[name].m.params && s != src :: r[name].m.params[s] == attrs[name].m.params[s]
    ensures r[name].m.params[src].Keys == attrs[name].m.params[src].Keys + {"v"}
    ensures forall a | a in attrs[name].m.params[src] && a != "v" ::
      r[name].m.params[src][a] == attrs[name].m.params[src][a]
    ensures r[name].m.params[src]["v"] == store
  {
    var m := attrs[name].m;
    attrs[name := ModelEntry(m.(params := m.params[src := m.params[src]["v" := store]]))]
  }

  class System {
    var attrs: map<string, Entry>
    var routines: set<string>
    var recent: Option<string>

    constructor (attrs: map<string, Entry>, routines: set<string>)
      ensures this.attrs == attrs && this.routines == routines && recent == None
    {
      this.attrs := attrs;
      this.routines := routines;
      recent := None;
    }
  }
}
