/** A routine parameter handle (`ams.core.param.RParam`): a name and a source
    attribute, an owner assigned after construction, and an optional
    explicit value. Reading `v` picks, in priority order, the explicit
    value, the owner group's gathered values, or the single owner's live
    attribute. The owner is a handle into the system arena (the system and
    the attribute name), so a live read always sees the owner's current
    store. */
module Param {
  import opened PyValues
  import DeviceModel
  import SystemState

  datatype Owner = NoOwner | OwnedBy(sys: SystemState.System, name: string)

  /** What `v` resolves to: the explicit array, a copy gathered across a
      group, or the owner's own `v` store of parameter `src`. */
  datatype Resolved =
    | Explicit(vals: seq<Scalar>)
    | Gathered(vals: seq<Scalar>)
    | Live(model: string, src: string)

  class RParam {
    var name: Option<string>
    var texName: Option<string>
    var info: Option<string>
    var src: Option<string>
    var unit: Option<string>
    var isGroup: bool
    var ownerName: Option<string>
    var owner: Owner
    var isSet: bool
    var explicitV: seq<Scalar>
    var vStr: Option<string>

    /** `RParam.__init__`: `tex_name` and `src` default to `name`; the
        handle starts unowned and not a group; it is set exactly when a
        value is supplied. */
    constructor (name: Option<string>, texName: Option<string>, info: Option<string>,
                 src: Option<string>, unit: Option<string>, ownerName: Option<string>,
                 v: Option<seq<Scalar>>, vStr: Option<string>)
      ensures this.name == name && this.info == info && this.unit == unit
      ensures this.ownerName == ownerName && this.vStr == vStr
      ensures this.texName == if texName.Some? then texName else name
      ensures this.src == if src.None? then name else src
      ensures !isGroup && owner == NoOwner
      ensures isSet <==> v.Some?
      ensures v.Some? ==> explicitV == v.value
    {
      this.name := name;
      this.texName := if texName.Some? then texName else name;
      this.info := info;
      this.src := if src.None? then name else src;
      this.unit := unit;
      this.isGroup := false;
      this.ownerName := ownerName;
      this.owner := NoOwner;
      this.isSet := false;
      this.vStr := vStr;
      if v.Some? {
        this.explicitV := v.value;
        this.isSet := true;
      }
    }

    function Frame(): set<object>
      reads this
    {
      if owner.OwnedBy? then {owner.sys} else {}
    }

    /** The system attribute the owner handle designates, if any. */
    function OwnerEntry(): (e: Option<SystemState.Entry>)
      reads this, Frame()
      ensures e.Some? <==> owner.OwnedBy? && owner.name in owner.sys.attrs
      ensures e.Some? ==> e.value == owner.sys.attrs[owner.name]
    {
      if owner.OwnedBy? && owner.name in owner.sys.attrs then Some(owner.sys.attrs[owner.name]) else None
    }

    /** The error of touching attribute `attr` on an owner that is absent or
        lacks it. */
    function Missing(attr: string): Error
      reads this
    {
      if owner.OwnedBy? then NoAttribute(owner.name + "." + attr) else NoAttribute(attr)
    }

    /** The `v` property. */
    function V(): (r: Result<Resolved>)
      reads this, Frame()
      ensures isSet ==> r == Ok(Explicit(explicitV))
      ensures !isSet && isGroup ==>
        (r.Ok? <==> OwnerEntry().Some? && OwnerEntry().value.GroupEntry?
                    && SystemState.GroupGather(owner.sys.attrs, OwnerEntry().value.members, src).Ok?)
      ensures !isSet && isGroup && r.Ok? ==>
        r.value == Gathered(SystemState.GroupGather(owner.sys.attrs, OwnerEntry().value.members, src).value)
      ensures !isSet && !isGroup ==>
        (r.Ok? <==> OwnerEntry().Some? && OwnerEntry().value.ModelEntry? && src.Some?
                    && DeviceModel.HasFacet(OwnerEntry().value.m, src.value, "v"))
      ensures !isSet && !isGroup && r.Ok? ==> r.value == Live(owner.name, src.value)
    {
      if isSet then Ok(Explicit(explicitV))
      else if isGroup then
        match OwnerEntry()
        case Some(GroupEntry(members)) =>
          (match SystemState.GroupGather(owner.sys.attrs, members, src)
           case Ok(vals) => Ok(Gathered(vals))
           case Err(e) => Err(e))
        case _ => Err(Missing("get_idx"))
      else if src.None? then Err(TypeError)
      else
        match OwnerEntry()
        case Some(ModelEntry(m)) =>
          if DeviceModel.HasFacet(m, src.value, "v") then Ok(Live(owner.name, src.value))
          else Err(Missing(src.value))
        case _ => Err(Missing(src.value))
    }

    /** The entries `v` shows now; a live view is read from the owner's
        current store. */
    function Contents(): (r: Result<seq<Scalar>>)
      reads this, Frame()
      ensures r.Ok? <==> V().Ok?
      ensures r.Ok? && V().value.Live? ==>
        r.value == owner.sys.attrs[owner.name].m.params[src.value]["v"].vals
      ensures r.Ok? && !V().value.Live? ==> r.value == V().value.vals
    {
      match V()
      case Err(e) => Err(e)
      case Ok(Live(_, s)) => Ok(OwnerEntry().value.m.params[s]["v"].vals)
      case Ok(res) => Ok(res.vals)
    }

    /** The `n` property: the explicit value's length, else the owner's
        count. */
    function N(): (r: Result<nat>)
      reads this, Frame()
      ensures isSet ==> r == Ok(|explicitV|)
      ensures !isSet && OwnerEntry().Some? && OwnerEntry().value.ModelEntry? ==>
        r == Ok(|OwnerEntry().value.m.idx|)
      ensures !isSet && OwnerEntry().Some? && OwnerEntry().value.GroupEntry? ==>
        r == SystemState.GroupCount(owner.sys.attrs, OwnerEntry().value.members)
      ensures !isSet && (OwnerEntry().None? || OwnerEntry().value.OtherEntry?) ==> r.Err?
    {
      if isSet then Ok(|explicitV|)
      else
        match OwnerEntry()
        case Some(ModelEntry(m)) => Ok(|m.idx|)
        case Some(GroupEntry(members)) => SystemState.GroupCount(owner.sys.attrs, members)
        case _ => Err(Missing("n"))
    }

    /** `get_idx`: a group's id list when `is_group` (checked first), `None`
        without an owner, else the owner model's `idx`. */
    function GetIdx(): (r: Result<Option<seq<Scalar>>>)
      reads this, Frame()
      ensures isGroup ==>
        (r.Ok? <==> OwnerEntry().Some? && OwnerEntry().value.GroupEntry?
                    && SystemState.GroupGetIdx(owner.sys.attrs, OwnerEntry().value.members).Ok?)
      ensures isGroup && r.Ok? ==>
        r.value == Some(SystemState.GroupGetIdx(owner.sys.attrs, OwnerEntry().value.members).value)
      ensures !isGroup && owner.NoOwner? ==> r == Ok(None)
      ensures !isGroup && owner.OwnedBy? ==>
        (r.Ok? <==> OwnerEntry().Some? && OwnerEntry().value.ModelEntry?)
      ensures !isGroup && owner.OwnedBy? && r.Ok? ==> r.value == Some(OwnerEntry().value.m.idx)
    {
      if isGroup then
        match OwnerEntry()
        case Some(GroupEntry(members)) =>
          (match SystemState.GroupGetIdx(owner.sys.attrs, members)
           case Ok(ids) => Ok(Some(ids))
           case Err(e) => Err(e))
        case _ => Err(Missing("get_idx"))
      else if owner.NoOwner? then Ok(None)
      else
        match OwnerEntry()
        case Some(ModelEntry(m)) => Ok(Some(m.idx))
        case _ => Err(Missing("idx"))
    }
  }

  /** Whatever path `v` takes, in a well-formed system its length is `n`. */
  lemma CountMatchesValue(p: RParam)
    requires p.owner.OwnedBy? ==> SystemState.WellFormed(p.owner.sys.attrs)
    requires p.V().Ok?
    ensures p.N().Ok? && p.Contents().Ok? && p.N().value == |p.Contents().value|
  {
    if !p.isSet && p.isGroup {
      SystemState.GatherMatchesCount(p.owner.sys.attrs, p.OwnerEntry().value.members, p.src);
    } else if !p.isSet {
      var m := p.OwnerEntry().value.m;
      assert p.owner.name in p.owner.sys.attrs && p.owner.sys.attrs[p.owner.name].ModelEntry?;
      assert DeviceModel.Sized(m);
      assert |m.params[p.src.value]["v"].vals| == |m.idx|;
    }
  }

  /** Without an explicit value, the ids `get_idx` lists number exactly `n`. */
  lemma IdsMatchCount(p: RParam)
    requires !p.isSet
    requires p.GetIdx().Ok? && p.GetIdx().value.Some?
    ensures p.N() == Ok(|p.GetIdx().value.value|)
  {
  }

  /** An explicit value wins over any owner, group flag or source. */
  lemma ExplicitWins(p: RParam)
    requires p.isSet
    ensures p.V() == Ok(Explicit(p.explicitV)) && p.N() == Ok(|p.explicitV|)
  {
  }

  /** A write to the owner's `v` store of the handle's source is visible
      through the handle without rebinding it: `v` names the same live
      store, and its contents are the new entries. */
  method WriteThroughOwner(p: RParam, store: DeviceModel.Store)
    requires p.V().Ok? && p.V().value.Live?
    modifies p.owner.sys
    ensures p.V() == old(p.V())
    ensures p.Contents() == Ok(store.vals)
  {
    var sys, name, s := p.owner.sys, p.owner.name, p.src.value;
    sys.attrs := SystemState.AssignV(sys.attrs, name, s, store);
  }
}
