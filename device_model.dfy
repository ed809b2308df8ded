/** A dispatch device model (`ams.core.model.Model`) as its accessors see it:
    the `idx` list of external device ids, the `uid` dictionary from id to
    dense position, and per parameter the stores of its facets (`v` for
    values, `a` for addresses, ...). `idx2uid` resolves ids to positions and
    `get` reads a parameter facet at the resolved positions. */
module DeviceModel {
  import opened PyValues
  import ListFlatten

  /** A facet store: a Python list, or a NumPy array after `list2array`. */
  datatype Store = ListStore(vals: seq<Scalar>) | ArrayStore(vals: seq<Scalar>)

  datatype Model = Model(
    className: string,
    group: string,
    idx: seq<Scalar>,
    uid: map<Scalar, nat>,
    params: map<string, map<string, Store>>)

  /** One element of a sequence argument of `idx2uid`: an id or `None`, or a
      nested list of them. */
  datatype Elem = Item(id: Option<Scalar>) | Nested(ids: seq<Option<Scalar>>)

  /** The argument of `idx2uid`: `None`, one id, or a list / array. */
  datatype IdxArg = NoneArg | One(k: Scalar) | Many(items: seq<Elem>)

  /** What the list comprehension of `idx2uid` meets at one position. */
  datatype Key = NoKey | Key(k: Scalar) | Unhashable

  /** The value `idx2uid` returns. */
  datatype Uids = NoUids | OneUid(u: nat) | UidSeq(us: seq<Option<nat>>)

  /** The value `get` returns: one entry, a list of entries, or (for `None`
      on a NumPy store) the whole array lifted by a new axis. */
  datatype Got = Value(v: Scalar) | Values(vs: seq<Scalar>) | Lifted(vs: seq<Scalar>)

  /** `uid` and `idx` describe the same registration: position `i` holds
      `idx[i]`, and `uid` has exactly the keys of the registered ids. */
  ghost predicate Indexed(m: Model) {
    && (forall k | k in m.uid :: m.uid[k] < |m.idx| && Canon(m.idx[m.uid[k]]) == k)
    && (forall i | 0 <= i < |m.idx| :: Canon(m.idx[i]) in m.uid && m.uid[Canon(m.idx[i])] == i)
  }

  /** Every facet store holds one entry per device. */
  ghost predicate Sized(m: Model) {
    forall s, a | s in m.params && a in m.params[s] :: |m.params[s][a].vals| == |m.idx|
  }

  // ---------------------------------------------------------------- idx2uid

  /** `_one_idx2uid`: the position of one id, or the KeyError naming the
      model and the id. */
  function OneIdx2Uid(m: Model, k: Scalar): (r: Result<nat>)
    ensures r.Ok? <==> Canon(k) in m.uid
    ensures r.Ok? ==> r.value == m.uid[Canon(k)]
    ensures r.Err? ==> r.error == DeviceNotExist(m.className, k)
  {
    if Canon(k) in m.uid then Ok(m.uid[Canon(k)]) else Err(DeviceNotExist(m.className, k))
  }

  function KeyOf(o: Option<Scalar>): Key {
    if o.None? then NoKey else Key(o.value)
  }

  function KeysOf(ids: seq<Option<Scalar>>): (ks: seq<Key>)
    ensures |ks| == |ids| && forall j | 0 <= j < |ids| :: ks[j] == KeyOf(ids[j])
  {
    seq(|ids|, j requires 0 <= j < |ids| => KeyOf(ids[j]))
  }

  /** A flat list argument built from ids and `None`s. */
  function Items(ids: seq<Option<Scalar>>): (es: seq<Elem>)
    ensures |es| == |ids| && forall j | 0 <= j < |ids| :: es[j] == Item(ids[j])
  {
    seq(|ids|, j requires 0 <= j < |ids| => Item(ids[j]))
  }

  /** A list of ids without `None`s. */
  function Listed(ids: seq<Scalar>): (os: seq<Option<Scalar>>)
    ensures |os| == |ids| && forall j | 0 <= j < |ids| :: os[j] == Some(ids[j])
  {
    seq(|ids|, j requires 0 <= j < |ids| => Some(ids[j]))
  }

  /** A nested list argument built from lists of ids. */
  function Groups(gs: seq<seq<Option<Scalar>>>): (es: seq<Elem>)
    ensures |es| == |gs| && forall j | 0 <= j < |gs| :: es[j] == Nested(gs[j])
  {
    seq(|gs|, j requires 0 <= j < |gs| => Nested(gs[j]))
  }

  /** `list_flatten` of a list whose first element is a list; an element that
      is not a list cannot be concatenated. */
  function FlattenedKeys(items: seq<Elem>): (r: Result<seq<Key>>)
    ensures r.Err? <==> exists j :: 0 <= j < |items| && items[j].Item?
    ensures r.Err? ==> r.error == TypeError
  {
    if items == [] then Ok([])
    else if items[0].Item? then Err(TypeError)
    else match FlattenedKeys(items[1..])
      case Err(e) => Err(e)
      case Ok(rest) =>
        assert forall j | 0 < j < |items| :: items[j] == items[1..][j - 1];
        Ok(KeysOf(items[0].ids) + rest)
  }

  /** The list as the comprehension walks it when it is not flattened: a
      nested list at a later position is an unhashable dictionary key. */
  function ElementKeys(items: seq<Elem>): (ks: seq<Key>)
    ensures |ks| == |items|
  {
    seq(|items|, j requires 0 <= j < |items| =>
      match items[j]
      case Item(o) => KeyOf(o)
      case Nested(_) => Unhashable)
  }

  /** The keys `idx2uid` resolves for a sequence argument. */
  function Keys(items: seq<Elem>): Result<seq<Key>>
  {
    if |items| > 0 && items[0].Nested? then FlattenedKeys(items) else Ok(ElementKeys(items))
  }

  /** A key the comprehension gets past: `None`, or an id in `uid`. */
  predicate Known(m: Model, key: Key) {
    key.NoKey? || (key.Key? && Canon(key.k) in m.uid)
  }

  function UidOfKey(m: Model, key: Key): Option<nat>
    requires Known(m, key)
  {
    if key.NoKey? then None else Some(m.uid[Canon(key.k)])
  }

  /** The exception an unresolvable key raises. */
  function KeyFailure(m: Model, key: Key): Error
    requires !Known(m, key)
  {
    if key.Unhashable? then TypeError else DeviceNotExist(m.className, key.k)
  }

  /** Position `j` is the first key the comprehension cannot resolve. */
  ghost predicate FirstFailure(m: Model, ks: seq<Key>, j: int) {
    && 0 <= j < |ks| && !Known(m, ks[j])
    && forall i | 0 <= i < j :: Known(m, ks[i])
  }

  /** The list comprehension `[_one_idx2uid(i) if i is not None else None for i in idx]`. */
  function MapKeys(m: Model, ks: seq<Key>): (r: Result<seq<Option<nat>>>)
    ensures r.Ok? <==> forall j | 0 <= j < |ks| :: Known(m, ks[j])
    ensures r.Ok? ==> |r.value| == |ks| && forall j | 0 <= j < |ks| :: r.value[j] == UidOfKey(m, ks[j])
    ensures r.Err? ==> exists j :: FirstFailure(m, ks, j) && r.error == KeyFailure(m, ks[j])
  {
    if ks == [] then Ok([])
    else
      var head: Result<Option<nat>> :=
        match ks[0]
        case NoKey => Ok(None)
        case Key(k) => (match OneIdx2Uid(m, k) case Ok(u) => Ok(Some(u)) case Err(e) => Err(e))
        case Unhashable => Err(TypeError);
      match head
      case Err(e) =>
        assert FirstFailure(m, ks, 0);
        Err(e)
      case Ok(h) =>
        match MapKeys(m, ks[1..])
        case Err(e) =>
          ghost var j :| FirstFailure(m, ks[1..], j) && e == KeyFailure(m, ks[1..][j]);
          assert FirstFailure(m, ks, j + 1);
          Err(e)
        case Ok(rest) =>
          assert forall j | 0 < j < |ks| :: ks[j] == ks[1..][j - 1];
          Ok([h] + rest)
  }

  /** `idx2uid`: `None` passes through; one id resolves to its position; a
      sequence (flattened one level when its first element is a list)
      resolves position by position, keeping length, order, duplicates and
      `None` entries, and fails as a whole at its first unresolvable key. */
  function Idx2Uid(m: Model, idx: IdxArg): (r: Result<Uids>)
    ensures idx.NoneArg? ==> r == Ok(NoUids)
    ensures idx.One? ==> (r.Ok? <==> Canon(idx.k) in m.uid)
    ensures idx.One? && r.Ok? ==> r.value == OneUid(m.uid[Canon(idx.k)])
    ensures idx.One? && r.Err? ==> r.error == DeviceNotExist(m.className, idx.k)
    ensures idx.Many? && Keys(idx.items).Err? ==> r == Err(TypeError)
    ensures idx.Many? && Keys(idx.items).Ok? ==>
      var ks := Keys(idx.items).value;
      && (r.Ok? <==> forall j | 0 <= j < |ks| :: Known(m, ks[j]))
      && (r.Ok? ==> r.value.UidSeq? && |r.value.us| == |ks|
                    && forall j | 0 <= j < |ks| :: r.value.us[j] == UidOfKey(m, ks[j]))
      && (r.Err? ==> exists j :: FirstFailure(m, ks, j) && r.error == KeyFailure(m, ks[j]))
  {
    match idx
    case NoneArg => Ok(NoUids)
    case One(k) => (match OneIdx2Uid(m, k) case Ok(u) => Ok(OneUid(u)) case Err(e) => Err(e))
    case Many(items) =>
      match Keys(items)
      case Err(e) => Err(e)
      case Ok(ks) => (match MapKeys(m, ks) case Ok(us) => Ok(UidSeq(us)) case Err(e) => Err(e))
  }

  // -------------------------------------------------------------------- get

  /** Reads the store at each position; a `None` position takes `default`
      when one is given, and is an invalid index otherwise. */
  function Gather(vals: seq<Scalar>, us: seq<Option<nat>>, default: Option<Scalar>): (r: Result<seq<Scalar>>)
    ensures r.Ok? <==> forall j | 0 <= j < |us| ::
      if us[j].None? then default.Some? else us[j].value < |vals|
    ensures r.Err? ==> r.error == IndexError
    ensures r.Ok? ==> |r.value| == |us| && forall j | 0 <= j < |us| ::
      r.value[j] == if us[j].None? then default.value else vals[us[j].value]
  {
    if us == [] then Ok([])
    else
      var head: Result<Scalar> :=
        if us[0].None? then (if default.Some? then Ok(default.value) else Err(IndexError))
        else if us[0].value < |vals| then Ok(vals[us[0].value]) else Err(IndexError);
      match head
      case Err(e) => Err(e)
      case Ok(h) =>
        match Gather(vals, us[1..], default)
        case Err(e) =>
          assert forall j | 0 < j < |us| :: us[j] == us[1..][j - 1];
          Err(e)
        case Ok(rest) =>
          assert forall j | 0 < j < |us| :: us[j] == us[1..][j - 1];
          Ok([h] + rest)
  }

  /** `self.<src>.<attr>[uid]`: indexing a list or an array with what
      `idx2uid` returned. */
  function Index(store: Store, uid: Uids): (r: Result<Got>)
    ensures uid.OneUid? ==> r == if uid.u < |store.vals| then Ok(Value(store.vals[uid.u])) else Err(IndexError)
    ensures uid.NoUids? ==> r == if store.ListStore? then Err(TypeError) else Ok(Lifted(store.vals))
    ensures uid.UidSeq? && store.ListStore? ==> r == Err(TypeError)
    ensures uid.UidSeq? && store.ArrayStore? ==>
      && (r.Ok? <==> forall j | 0 <= j < |uid.us| :: uid.us[j].Some? && uid.us[j].value < |store.vals|)
      && (r.Ok? ==> r.value.Values? && |r.value.vs| == |uid.us|
                    && forall j | 0 <= j < |uid.us| :: r.value.vs[j] == store.vals[uid.us[j].value])
  {
    match uid
    case OneUid(u) => if u < |store.vals| then Ok(Value(store.vals[u])) else Err(IndexError)
    case NoUids => if store.ListStore? then Err(TypeError) else Ok(Lifted(store.vals))
    case UidSeq(us) =>
      if store.ListStore? then Err(TypeError)
      else match Gather(store.vals, us, None) case Ok(vs) => Ok(Values(vs)) case Err(e) => Err(e)
  }

  predicate HasFacet(m: Model, src: string, attr: string) {
    src in m.params && attr in m.params[src]
  }

  /** `Model.get`: resolve `idx`, then read facet `attr` of parameter `src`.
      A list store read with a list of positions keeps `None` positions only
      when `allow_none` is set, filling them with `default`; anything else
      indexes the store directly. */
  function Get(m: Model, src: string, idx: IdxArg, attr: string, allowNone: bool, default: Scalar): (r: Result<Got>)
    ensures Idx2Uid(m, idx).Err? ==> r == Err(Idx2Uid(m, idx).error)
    ensures Idx2Uid(m, idx).Ok? && !HasFacet(m, src, attr) ==> r == Err(MissingKey(if src in m.params then attr else src))
    ensures Idx2Uid(m, idx).Ok? && HasFacet(m, src, attr) ==>
      var uid, store := Idx2Uid(m, idx).value, m.params[src][attr];
      if store.ListStore? && uid.UidSeq? then
        && (!allowNone && None in uid.us ==> r == Err(NoneNotAllowed))
        && (allowNone || None !in uid.us ==>
              && (r.Ok? <==> forall j | 0 <= j < |uid.us| :: uid.us[j].Some? ==> uid.us[j].value < |store.vals|)
              && (r.Err? ==> r.error == IndexError)
              && (r.Ok? ==> r.value.Values? && |r.value.vs| == |uid.us|
                            && forall j | 0 <= j < |uid.us| ::
                                 r.value.vs[j] == if uid.us[j].None? then default else store.vals[uid.us[j].value]))
      else r == Index(store, uid)
  {
    match Idx2Uid(m, idx)
    case Err(e) => Err(e)
    case Ok(uid) =>
      if src !in m.params then Err(MissingKey(src))
      else if attr !in m.params[src] then Err(MissingKey(attr))
      else
        var store := m.params[src][attr];
        if store.ListStore? && uid.UidSeq? then
          if !allowNone && None in uid.us then Err(NoneNotAllowed)
          else match Gather(store.vals, uid.us, Some(default)) case Ok(vs) => Ok(Values(vs)) case Err(e) => Err(e)
        else Index(store, uid)
  }

  // ----------------------------------------------------------------- lemmas

  /** `idx2uid(None)` is `None`, without an error, whatever the model. */
  lemma NonePassesThrough(m: Model)
    ensures Idx2Uid(m, NoneArg) == Ok(NoUids)
  {
  }

  /** Registration and resolution are inverse: each registered id resolves to
      its own position, and whatever resolves lands on an id equal to the one
      asked for. */
  lemma RoundTrip(m: Model, k: Scalar)
    requires Indexed(m)
    ensures forall i | 0 <= i < |m.idx| :: OneIdx2Uid(m, m.idx[i]) == Ok(i)
    ensures OneIdx2Uid(m, k).Ok? ==> OneIdx2Uid(m, k).value < |m.idx| && PyEq(m.idx[OneIdx2Uid(m, k).value], k)
    ensures OneIdx2Uid(m, k).Err? <==> !PyIn(k, m.idx)
  {
    if Canon(k) in m.uid {
      var u := m.uid[Canon(k)];
      assert PyEq(k, m.idx[u]);
    }
  }

  lemma {:induction false} KeysOfAppend(a: seq<Option<Scalar>>, b: seq<Option<Scalar>>)
    ensures KeysOf(a + b) == KeysOf(a) + KeysOf(b)
  {
  }

  lemma {:induction false} FlattenedGroups(gs: seq<seq<Option<Scalar>>>)
    ensures FlattenedKeys(Groups(gs)) == Ok(KeysOf(ListFlatten.Flatten(gs)))
  {
    if gs != [] {
      assert Groups(gs)[1..] == Groups(gs[1..]);
      FlattenedGroups(gs[1..]);
      KeysOfAppend(gs[0], ListFlatten.Flatten(gs[1..]));
    }
  }

  /** A flat argument resolves entry by entry: same length and order,
      duplicates kept, `None` in the same places; it fails exactly when some
      id is unknown, with the KeyError of the first unknown id. */
  lemma FlatIds(m: Model, ids: seq<Option<Scalar>>)
    ensures var r := Idx2Uid(m, Many(Items(ids)));
      && (r.Ok? <==> forall j | 0 <= j < |ids| :: ids[j].Some? ==> Canon(ids[j].value) in m.uid)
      && (r.Ok? ==> r.value.UidSeq? && |r.value.us| == |ids|
                    && forall j | 0 <= j < |ids| ::
                         r.value.us[j] == if ids[j].None? then None else Some(m.uid[Canon(ids[j].value)]))
      && (r.Err? ==> exists j :: 0 <= j < |ids| && ids[j].Some? && Canon(ids[j].value) !in m.uid
                             && r.error == DeviceNotExist(m.className, ids[j].value))
  {
    var ks := Keys(Items(ids)).value;
    assert ks == KeysOf(ids);
  }

  /** Arguments with the same keys resolve alike. */
  lemma SameKeysResolveAlike(m: Model, a: seq<Elem>, b: seq<Elem>)
    requires Keys(a) == Keys(b)
    ensures Idx2Uid(m, Many(a)) == Idx2Uid(m, Many(b))
  {
  }

  /** A list of lists is resolved as the concatenation of its lists. */
  lemma NestedIsFlattened(m: Model, gs: seq<seq<Option<Scalar>>>)
    requires |gs| > 0
    ensures Idx2Uid(m, Many(Groups(gs))) == Idx2Uid(m, Many(Items(ListFlatten.Flatten(gs))))
  {
    FlattenedGroups(gs);
    var flat := ListFlatten.Flatten(gs);
    assert Groups(gs)[0].Nested?;
    assert Keys(Groups(gs)) == Ok(KeysOf(flat));
    assert ElementKeys(Items(flat)) == KeysOf(flat);
    assert Keys(Items(flat)) == Ok(KeysOf(flat));
    SameKeysResolveAlike(m, Groups(gs), Items(flat));
  }

  /** Reading a list of ids gives, at every position, what reading that one
      id gives: the list path and the scalar path of `get` agree. */
  lemma ListAgreesWithScalar(m: Model, src: string, attr: string, ids: seq<Scalar>, allowNone: bool, default: Scalar, j: nat)
    requires j < |ids|
    requires Get(m, src, Many(Items(Listed(ids))), attr, allowNone, default).Ok?
    ensures Get(m, src, One(ids[j]), attr, allowNone, default).Ok?
    ensures Get(m, src, Many(Items(Listed(ids))), attr, allowNone, default).value.vs[j]
         == Get(m, src, One(ids[j]), attr, allowNone, default).value.v
  {
    var os := Listed(ids);
    FlatIds(m, os);
    var all := Idx2Uid(m, Many(Items(os)));
    assert all.Ok?;
    var us := all.value.us;
    var u := m.uid[Canon(ids[j])];
    assert us[j] == Some(u);
    assert None !in us;
    assert Idx2Uid(m, One(ids[j])) == Ok(OneUid(u));
    var store := m.params[src][attr];
    var r := Get(m, src, Many(Items(os)), attr, allowNone, default);
    if store.ListStore? {
      assert r.value.vs[j] == store.vals[u];
    } else {
      assert r == Index(store, all.value);
      assert r.value.vs[j] == store.vals[u];
    }
  }

  /** `get(src, ids)` on a list store, for any list of ids all registered
      and in range: with `allow_none` each `None` reads as `default` and each
      id reads its entry of the store; without it, any `None` raises, and a
      list without `None` reads as with it. */
  lemma DefaultFillsNone(m: Model, src: string, ids: seq<Option<Scalar>>, default: Scalar)
    requires HasFacet(m, src, "v") && m.params[src]["v"].ListStore?
    requires forall j | 0 <= j < |ids| :: ids[j].Some? ==>
      Canon(ids[j].value) in m.uid && m.uid[Canon(ids[j].value)] < |m.params[src]["v"].vals|
    ensures var r := Get(m, src, Many(Items(ids)), "v", true, default);
      && r.Ok? && r.value.Values? && |r.value.vs| == |ids|
      && forall j | 0 <= j < |ids| ::
           r.value.vs[j] == if ids[j].None? then default else m.params[src]["v"].vals[m.uid[Canon(ids[j].value)]]
    ensures None in ids ==> Get(m, src, Many(Items(ids)), "v", false, default) == Err(NoneNotAllowed)
    ensures None !in ids ==>
      Get(m, src, Many(Items(ids)), "v", false, default) == Get(m, src, Many(Items(ids)), "v", true, default)
  {
    FlatIds(m, ids);
    var us := Idx2Uid(m, Many(Items(ids))).value.us;
    assert None in ids <==> None in us by {
      forall j | 0 <= j < |ids| ensures ids[j].None? <==> us[j].None? {}
      if None in ids {
        var j :| 0 <= j < |ids| && ids[j] == None;
        assert us[j] == None;
      }
      if None in us {
        var j :| 0 <= j < |us| && us[j] == None;
        assert ids[j] == None;
      }
    }
  }
}
