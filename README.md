# AMS dispatch core, modelled in Dafny

This project models the core of AMS, a power-system dispatch modelling
library built on top of ANDES. It covers six pieces:

- **Device-model accessors** (`Model.idx2uid`, `_one_idx2uid`, `Model.get`).
  These turn device ids into positions and read parameter stores.
  Python values are modelled as ints, floats and strings. Python's `1 == 1.0`
  is modelled by a canonical key.
- **The routine parameter handle** (`RParam`). This covers its constructor
  defaults and the `v`, `n` and `get_idx` properties. These read an explicit
  value, a device group, or the owner model's live store.
- **The bus selection of `MatProcessor.make`.** This covers the generator
  buses (`regBus`), the other buses (`redBus`) and the PTDF column slices
  they pick. The PTDF itself is an opaque list of columns.
- **`unpack` and `run` of the DC power flow (`DCPFlowBase`) and the AC
  optimal power flow (`ACOPFBase`).** The external solver is a function
  parameter from the system to a solver result.
- **The unit-commitment initial guess** (`UCModel._initial_guess`, `init`).
- **The routine registry** (`all_routines`, `class_names`, `routine_cli`).

The system is an arena, `SystemState.System`. It holds the attributes by
name: device models, device groups (the names of their member models) and
other attributes. It also holds the registered routines and the `recent`
cursor. A parameter handle refers to its owner by system and name, so a
live read always sees the owner's current store.

`unpack` *rebinds* `system.Bus.v.v` and the other stores to new arrays
(ams/routines/dcpf.py:92-101). It does not write into the old arrays in
place, although the docstring of `Model.list2array` (ams/core/model.py:51-52)
asks that all assignments to value arrays be made in place. The model
follows the code. `RoutineUnpack.Rebind` and `SystemState.AssignV` model
the rebinding. `Param.WriteThroughOwner` shows that a live handle still sees
the new store.

Modules: `PyValues`, `ListFlatten`, `DeviceModel`, `SystemState`, `Param`,
`MatProcessor`, `RoutineUnpack`, `DCPFlow`, `ACOPFlow`, `UnitCommitment`,
`RoutineRegistry`.

## Model

| member | source | states |
|---|---|---|
| PyValues.Canon | ams/core/model.py:129-133 | the dictionary key of an id stands for the same number or text, and an integral float becomes an int, as Python hashing makes `1` and `1.0` one key |
| PyValues.PyEqIsValueEquality | ams/core/model.py:129 | Python `==` on ids is equality of the value they stand for |
| PyValues.PyEq | ams/core/model.py:129 | Python `==` between two ids: they are equal exactly when they have the same dictionary key, so `1 == 1.0` |
| PyValues.PyIn | ams/core/matprocessor.py:39 | Python `x in xs` on a list of ids: some entry of the list is `==` to `x` |
| PyValues.Trunc | ams/core/matprocessor.py:38-39 | `int()` of a float truncates toward zero, for both signs |
| PyValues.IntCast | ams/core/matprocessor.py:38-39 | numbers are cast to int and strings pass unchanged |
| PyValues.CastKeepsKey | ams/core/matprocessor.py:38-39 | casting a string, an int or an integral float keeps it equal to the original id |
| PyValues.CastMovesFraction | ams/core/matprocessor.py:38-39 | every float id with a fractional part is cast to the int toward zero, which is a different key (`int(1.5) == 1`) |
| PyValues.CastKeepsKeyExactly | ams/core/matprocessor.py:38-39 | the cast keeps an id's key exactly when the id is a string, an int or an integral float |
| ListFlatten.FlattenLength | ams/routines/__init__.py:22 | the flattened list is as long as the inner lists together |
| ListFlatten.FlattenAppend | ams/core/model.py:115-116 | flattening distributes over concatenation |
| ListFlatten.FlattenAt | ams/routines/__init__.py:22 | element `k` of inner list `i` sits at the offset of list `i` plus `k`, so nothing is lost or reordered |
| ListFlatten.FlattenFrom | ams/routines/__init__.py:22 | every element of the flattened list comes from some inner list |
| DeviceModel.OneIdx2Uid | ams/core/model.py:123-133 | succeeds exactly when the id's key is in `uid`, and then gives its position; otherwise the KeyError names the model and the id |
| DeviceModel.KeysOf | ams/core/model.py:117-118 | one key per element of the list, in order |
| DeviceModel.Items | ams/core/model.py:114-118 | a flat list argument keeps one element per id or `None`, in order |
| DeviceModel.Listed | ams/core/model.py:114-118 | a list of ids without `None` keeps every id, in order |
| DeviceModel.Groups | ams/core/model.py:115-116 | a nested argument keeps one element per inner list |
| DeviceModel.FlattenedKeys | ams/core/model.py:115-116 | flattening fails with TypeError exactly when some element is not a list |
| DeviceModel.ElementKeys | ams/core/model.py:117-118 | the unflattened walk meets one key per element |
| DeviceModel.MapKeys | ams/core/model.py:117-118 | the comprehension succeeds exactly when every key is `None` or a known id; it then maps each entry to its position or `None`, and otherwise raises the error of the first unknown id |
| DeviceModel.Idx2Uid | ams/core/model.py:109-120 | `None` gives `None`; one id resolves as `_one_idx2uid`; a sequence is resolved entry by entry after flattening when its first element is a list |
| DeviceModel.Gather | ams/core/model.py:90-91 | each position reads the store, a `None` position takes the default, and an out-of-range position raises IndexError |
| DeviceModel.Index | ams/core/model.py:93 | indexing a list with one position reads that entry; an array indexed by a list of positions reads each one; a list indexed by a list or by `None` raises TypeError |
| DeviceModel.Get | ams/core/model.py:58-93 | resolution errors propagate; a missing parameter or facet raises the KeyError of the `__dict__` lookup; a list store with a list of uids forbids `None` unless `allow_none`, then fills `None` with `default`; otherwise the store is indexed directly |
| DeviceModel.NonePassesThrough | ams/core/model.py:109-111 | `idx2uid(None)` is `None` for every model |
| DeviceModel.RoundTrip | ams/core/model.py:123-133 | every registered id resolves to its own position; a resolved position holds an id equal to the query; resolution fails exactly when the id is not registered |
| DeviceModel.KeysOfAppend | ams/core/model.py:117-118 | keys of a concatenation are the concatenated keys |
| DeviceModel.FlattenedGroups | ams/core/model.py:115-116 | flattening a list of lists gives the keys of the concatenated lists |
| DeviceModel.FlatIds | ams/core/model.py:117-118 | a flat argument resolves entry by entry: same length and order, `None` to `None`, an id to its position, the first unknown id to its KeyError |
| DeviceModel.SameKeysResolveAlike | ams/core/model.py:114-118 | two sequence arguments with the same keys resolve to the same result |
| DeviceModel.NestedIsFlattened | ams/core/model.py:115-118 | a list of lists resolves exactly as the concatenation of its lists |
| DeviceModel.ListAgreesWithScalar | ams/core/model.py:86-93 | reading a list of ids gives at each position what reading that id alone gives |
| DeviceModel.DefaultFillsNone | ams/core/model.py:86-91 | for any list of registered ids and `None`s on a list store: with `allow_none` each `None` reads `default` and each id reads its entry; without it, any `None` raises, and a list without `None` reads the same either way |
| SystemState.Member | ams/core/param.py:66-67 | a group member resolves exactly when it names a device model |
| SystemState.GroupCount | ams/core/param.py:77 | a group's count exists exactly when every member is a model |
| SystemState.GroupGetIdx | ams/core/param.py:112 | a group's id list exists exactly when its count does, and is that long |
| SystemState.GroupGather | ams/core/param.py:66-67 | gathering without a source raises TypeError, and a successful gather implies every member is a model |
| SystemState.Stores | ams/core/param.py:66-67 | the members' `v` stores of a parameter, one per member, in member order |
| SystemState.GatherIsConcatenation | ams/core/param.py:66-67 | an empty group gathers nothing; otherwise the gather succeeds exactly when `src` is given and every member is a model with that parameter's `v` store, and then gives the members' stores concatenated in member order |
| SystemState.GatherMatchesCount | ams/core/param.py:66-67 | in a well-formed system the gathered values number the group's count |
| SystemState.AssignV | ams/routines/dcpf.py:92-101 | rebinding one `v` store changes that store and nothing else: other attributes, parameters, facets and the ids stay |
| SystemState.System.constructor | ams/routines/dcpf.py:119 | a system starts with its attributes, its routines and no recent routine |
| Param.RParam.constructor | ams/core/param.py:42-54 | `tex_name` and `src` default to `name`; the handle starts unowned and not a group; it is set exactly when a value is given, and then holds it |
| Param.RParam.OwnerEntry | ams/core/param.py:66-70 | the owner handle designates the system attribute of its name, when present |
| Param.RParam.V | ams/core/param.py:63-70 | an explicit value wins; a group gathers its members' stores and fails exactly when the gather fails; otherwise the owner model's live store is read and fails exactly without an owner, source or facet |
| Param.RParam.Contents | ams/core/param.py:63-70 | the entries `v` shows: the owner's current store for a live read, the resolved copy otherwise; it succeeds exactly with `v` |
| Param.RParam.N | ams/core/param.py:72-77 | the explicit value's length, else the owner model's device count or the group's count; an error without an owner |
| Param.RParam.GetIdx | ams/core/param.py:110-117 | a group's concatenated ids when `is_group` (checked first), `None` without an owner, else the owner model's ids |
| Param.CountMatchesValue | ams/core/param.py:63-77 | whichever path `v` takes, `n` is the length of what `v` shows |
| Param.IdsMatchCount | ams/core/param.py:72-77 | without an explicit value, `get_idx` lists exactly `n` ids |
| Param.ExplicitWins | ams/core/param.py:63-64 | an explicit value decides `v` and `n` whatever the owner |
| Param.WriteThroughOwner | ams/core/param.py:69-70 | after the owner's store is rebound, a live handle still resolves the same way and shows the new entries |
| MatProcessor.RegBus | ams/core/matprocessor.py:38 | one cast bus per generator, in generator order |
| MatProcessor.RedBus | ams/core/matprocessor.py:39 | `redBus`: the cast ids of the bus table whose uncast id is not `in` the generator buses, in table order; no longer than the table, and each entry is the cast of such a table id |
| MatProcessor.KeptInOrder | ams/core/matprocessor.py:39 | entry `j` of `redBus` is the cast bus at the `j`-th kept position, and kept positions increase |
| MatProcessor.KeptExactly | ams/core/matprocessor.py:39 | a bus-table position is kept exactly when its bus is not a generator bus |
| MatProcessor.RedBusInTableOrder | ams/core/matprocessor.py:39 | `redBus` is the cast bus table restricted to the positions whose bus is not a generator bus, in increasing position order |
| MatProcessor.BusUids | ams/core/matprocessor.py:41-42 | succeeds exactly when every id is a bus, and then gives each id's position; otherwise some id is missing |
| MatProcessor.Columns | ams/core/matprocessor.py:43 | `PTDF[:, us]` picks the columns at the positions, in order, or raises IndexError |
| MatProcessor.Partition | ams/core/matprocessor.py:38-43 | the first slice is the column of each generator's bus, the second the column of each other bus; it succeeds whenever every bus of both lists is in the table at a column the PTDF has; a bus missing from the table raises the bus model's KeyError, and otherwise a failure is the IndexError of a missing column |
| MatProcessor.RedColumnsExist | ams/core/matprocessor.py:39-42 | on a well-formed table whose ids the cast keeps, every other bus resolves to a table position |
| MatProcessor.InTableExactly | ams/core/model.py:123-133 | an id has a position exactly when it is `in` the table, and that position is a table position |
| MatProcessor.GenBusesFound | ams/core/matprocessor.py:38-43 | when every generator's cast bus is in the table and the PTDF has a column per bus, the selection succeeds |
| MatProcessor.GenBusMissing | ams/core/matprocessor.py:38-41 | a generator's cast bus missing from the table makes the selection fail |
| MatProcessor.PartitionSucceeds | ams/core/matprocessor.py:38-43 | on a well-formed table with a PTDF column per bus, the selection succeeds exactly when every generator's cast bus is in the table |
| MatProcessor.Make | ams/core/matprocessor.py:35-43 | a missing or non-group `StaticGen` raises AttributeError; a failed gather of the generators' `bus` values raises its exception; otherwise a missing `Bus` model raises AttributeError, and with it the result is the selection `Partition` makes from the gathered buses |
| MatProcessor.MakeSucceeds | ams/core/matprocessor.py:35-43 | when every generator has a `bus` store, the bus table is well formed with ids the cast keeps, and the PTDF has a column per bus, `make` succeeds exactly when every generator's cast bus is in the bus table |
| MatProcessor.NoBusInBoth | ams/core/matprocessor.py:38-39 | for ids that `int()` leaves on their key, no bus is both a generator bus and another bus |
| MatProcessor.RedUidsAreKept | ams/core/matprocessor.py:39-42 | the other buses resolve to exactly the kept bus-table positions |
| MatProcessor.RegUidsMatch | ams/core/matprocessor.py:38-41 | each generator-bus position holds a bus equal to that generator's bus |
| MatProcessor.RegUidsExactly | ams/core/matprocessor.py:38-41 | a bus position is a generator-bus column exactly when its bus is a generator bus |
| MatProcessor.EveryBusColumnOnce | ams/core/matprocessor.py:38-43 | every bus position is selected either among the generator columns or, once, among the other columns |
| RoutineUnpack.Reals | ams/routines/dcpf.py:92-101 | a float array with one entry per value, in order |
| RoutineUnpack.Magnitudes | ams/routines/dcpf.py:92 | column 7 of each bus row |
| RoutineUnpack.Angles | ams/routines/dcpf.py:93 | column 8 of each bus row times `deg2rad` |
| RoutineUnpack.Active | ams/routines/dcpf.py:96-100 | column 1 of each generator row over `baseMVA` |
| RoutineUnpack.Reactive | ams/routines/dcpf.py:97-101 | column 2 of each generator row over `baseMVA` |
| RoutineUnpack.WriteFacet | ams/routines/dcpf.py:92-101 | an assignment succeeds exactly when the model and its parameter exist, and then rebinds that store |
| RoutineUnpack.Apply | ams/routines/dcpf.py:92-101 | a run of assignment statements in program order: each rebinds its store, and the first that raises stops the rest, leaving the earlier ones in place |
| RoutineUnpack.ApplyShape | ams/routines/dcpf.py:92-101 | a run of assignments keeps the attributes, ids and parameters of the system |
| RoutineUnpack.ApplyStep | ams/routines/dcpf.py:92-101 | the first assignment of a run either raises, ending the run, or leaves the rest to run on the system it produced |
| RoutineUnpack.ApplyFrame | ams/routines/dcpf.py:92-101 | a run of assignments keeps the system's shape and leaves every store it does not assign unchanged |
| RoutineUnpack.ApplyKeepsModels | ams/routines/dcpf.py:92-101 | a run of assignments leaves every model it does not assign to as it was |
| RoutineUnpack.ApplyKeepsParams | ams/routines/dcpf.py:92-101 | a run of assignments keeps the shape and leaves every parameter it does not assign as it was |
| RoutineUnpack.ApplyLands | ams/routines/dcpf.py:92-101 | after a successful run, the last assignment to a store is what the store holds |
| RoutineUnpack.ApplySucceeds | ams/routines/dcpf.py:92-101 | a run raises nothing when every model and parameter it assigns exists |
| RoutineUnpack.ApplyNeeds | ams/routines/dcpf.py:92-101 | a run that raised nothing found every model and parameter it assigns |
| RoutineUnpack.Cut | ams/routines/dcpf.py:96-101 | the generator table is cut at `Slack.n`, or at its end when shorter, as slicing does |
| RoutineUnpack.BusWrites | ams/routines/dcpf.py:92-93 | the two bus assignments: `Bus.v` gets column 7 of the bus table and `Bus.a` column 8 in radians |
| RoutineUnpack.SlackCount | ams/routines/dcpf.py:96-101 | `system.Slack.n`: the device count of the slack model, or of a group of that name; a missing or other attribute raises AttributeError |
| RoutineUnpack.GenWrites | ams/routines/dcpf.py:96-101 | the four generator assignments: PV `p`/`q` get the rows from `Slack.n` on, Slack `p`/`q` the rows before it, columns 1 and 2 over `baseMVA` |
| RoutineUnpack.DeviceWrites | ams/routines/dcpf.py:92-101 | the device half of `unpack`: the bus assignments, then `Slack.n` read on the updated system, then the generator assignments, stopping at the first exception |
| RoutineUnpack.SlackCountKept | ams/routines/dcpf.py:92-96 | the bus assignments leave `Slack.n` as it was |
| RoutineUnpack.BusWritesSucceed | ams/routines/dcpf.py:92-93 | the bus assignments raise nothing exactly when the bus model has `v` and `a` |
| RoutineUnpack.GenWritesSucceed | ams/routines/dcpf.py:96-101 | the generator assignments raise nothing exactly when the PV and slack models have `p` and `q` |
| RoutineUnpack.DeviceWritesSucceed | ams/routines/dcpf.py:92-101 | the device half of `unpack` raises nothing exactly when the system has the bus, PV and slack models with their parameters |
| RoutineUnpack.BusWritesLand | ams/routines/dcpf.py:92-93 | afterwards the bus stores hold the solver's voltage magnitudes and the angles in radians |
| RoutineUnpack.BusLandsFirst | ams/routines/dcpf.py:92-93 | right after the bus assignments the bus stores hold the magnitudes and the angles in radians |
| RoutineUnpack.GenKeepsBus | ams/routines/dcpf.py:96-101 | the generator assignments leave the bus model as it was |
| RoutineUnpack.FourLand | ams/routines/dcpf.py:96-101 | four successful assignments to four different stores each land |
| RoutineUnpack.GenWritesLand | ams/routines/dcpf.py:96-101 | afterwards the slack stores hold the first `Slack.n` generator rows and the PV stores the rest, both per unit; together they are the whole generator table |
| RoutineUnpack.GenLands | ams/routines/dcpf.py:96-101 | after the generator assignments the PV stores hold the rows from the cut on and the slack stores the rows before it, per unit |
| RoutineUnpack.BusWritesNames | ams/routines/dcpf.py:92-93 | the bus assignments go only to the bus model |
| RoutineUnpack.GenWritesNames | ams/routines/dcpf.py:96-101 | the generator assignments go only to the PV and slack models |
| RoutineUnpack.DeviceWritesFrame | ams/routines/dcpf.py:92-101 | the device assignments touch only the bus, PV and slack models and keep the system's shape |
| RoutineUnpack.BusFrame | ams/routines/dcpf.py:92-93 | the bus assignments keep the shape and change only the bus model |
| RoutineUnpack.GenFrame | ams/routines/dcpf.py:96-101 | the generator assignments keep the shape and change only the PV and slack models |
| RoutineUnpack.RealsAppend | ams/routines/dcpf.py:96-101 | an array of a concatenation is the concatenation of the arrays |
| RoutineUnpack.SplitRows | ams/routines/dcpf.py:96-101 | cutting the generator table and scaling each part is scaling the whole table |
| RoutineUnpack.ScaledBack | ams/routines/dcpf.py:96-101 | the per-unit values times `baseMVA` are the solver's values |
| RoutineUnpack.GroupCountOfShape | ams/routines/dcpf.py:96-101 | group counts depend only on member ids, which rebinding keeps |
| RoutineUnpack.Rebind | ams/routines/dcpf.py:92 | one assignment statement changes the system as the assignment step says |
| RoutineUnpack.WriteDevices | ams/routines/dcpf.py:92-101 | the six assignments change the system as the device half of `unpack` says |
| RoutineUnpack.WriteBus | ams/routines/dcpf.py:92-93 | the two bus assignments change the system as the bus run says |
| RoutineUnpack.WriteGens | ams/routines/dcpf.py:96-101 | the four PV and slack assignments change the system as the generator run says |
| RoutineUnpack.SkipRules | ams/routines/dcpf.py:105-107 | a missing owner raises; a variable without a source, or whose owner is neither model nor group, is skipped |
| RoutineUnpack.ModelRead | ams/routines/dcpf.py:108-118 | a model owner: `getattr(system, owner.group).get_idx()`, then `owner.get(src, idx=...)`; a missing group or one without `get_idx` raises AttributeError, and a failed read raises its exception |
| RoutineUnpack.VarAction | ams/routines/dcpf.py:105-118 | one turn of the loop: the owner is looked up first, then a variable without `src` is skipped, a model owner reads as `ModelRead`, a group owner gathers its own ids, and any other owner is skipped |
| RoutineUnpack.VarsOutcome | ams/routines/dcpf.py:104-118 | the loop over the routine's variables in order: each assigning turn sets that variable's value, and the first exception ends the loop with the values assigned so far |
| RoutineUnpack.ModelOwnerReads | ams/routines/dcpf.py:108-118 | a model owner whose group lists only its own ids reads its store at those ids |
| RoutineUnpack.ForeignIdAborts | ams/routines/dcpf.py:108-118 | a model owner whose group also lists another model's id raises that model's KeyError |
| RoutineUnpack.GroupOwnerGathers | ams/routines/dcpf.py:111-118 | a group owner gets the values gathered over its members, one per device |
| RoutineUnpack.ErrorSticks | ams/routines/dcpf.py:104-118 | once the loop has raised, later variables change nothing |
| RoutineUnpack.SkipIsTransparent | ams/routines/dcpf.py:106-117 | a skipped variable is as if it were not in the list |
| RoutineUnpack.FirstAbortStops | ams/routines/dcpf.py:104-118 | the loop stops at the first variable that raises, with its exception |
| RoutineUnpack.NoAbortPrefix | ams/routines/dcpf.py:104-118 | without a raising variable the loop runs to the end |
| RoutineUnpack.NoAbortAssignsAll | ams/routines/dcpf.py:104-118 | without a raising variable, each assigned variable ends with the value its last turn read |
| RoutineUnpack.OnlyAssignedNames | ams/routines/dcpf.py:104-118 | only variables whose turn assigns get a value |
| RoutineUnpack.UnpackVars | ams/routines/dcpf.py:104-118 | the loop as run gives the outcome of the variable loop |
| RoutineUnpack.UnpackOutcome | ams/routines/dcpf.py:82-120 | the device writes happen; the loop runs only when they raised nothing; `recent` is set and True returned exactly when both succeeded and the routine is registered, otherwise `recent` stays |
| RoutineUnpack.UnpackedStores | ams/routines/dcpf.py:90-101 | an unpack that reached the copy step leaves the solver's voltage magnitudes and angles in the bus stores, and its per-unit generator powers split between the slack and PV stores at the slack count |
| DCPFlow.DCPFlowBase.constructor | ams/routines/dcpf.py:82-120 | a routine starts not set up, with no values and exit code 0 |
| DCPFlow.DCPFlowBase.Setup | ams/routines/dcpf.py:143-145 | `setup` marks the routine set up |
| DCPFlow.DCPFlowBase.Unpack | ams/routines/dcpf.py:82-120 | the system, the variable values and `recent` become what the outcome of `unpack` says |
| DCPFlow.DCPFlowBase.Run | ams/routines/dcpf.py:143-159 | `setup` runs only when not set up; the exit code is 0 exactly on success; the results are unpacked; True exactly with exit code 0 |
| ACOPFlow.ExitCode | ams/routines/acopf.py:107 | `int(1 - success)` is 0 exactly on success, and 0 or 1 |
| ACOPFlow.ACOPFBase.constructor | ams/routines/acopf.py:55-96 | a routine starts not set up, with no values and no objective |
| ACOPFlow.ACOPFBase.Setup | ams/routines/acopf.py:102-104 | `setup` marks the routine set up |
| ACOPFlow.ACOPFBase.Unpack | ams/routines/acopf.py:55-96 | as the DC `unpack`, and `obj.v` takes the solver's objective once the loop completes |
| ACOPFlow.ACOPFBase.Run | ams/routines/acopf.py:98-113 | `setup` only when not set up; exit code `int(1 - success)`; the results are unpacked; the exit code is returned |
| UnitCommitment.Scores | ams/routines/uc.py:188 | one weighted score per generator from its cost coefficients and capacity |
| UnitCommitment.OffCount | ams/routines/uc.py:193 | `int(0.3*n)`: the largest whole number not above 30% of `n` |
| UnitCommitment.Range | ams/routines/uc.py:180 | the generator positions in order |
| UnitCommitment.Score | ams/routines/uc.py:188 | `wsum = 0.4*c2 + 0.3*c1 + 0.2*c0 + 0.1*Sn` for one generator |
| UnitCommitment.Insert | ams/routines/uc.py:189 | insertion adds one position and keeps every position in range |
| UnitCommitment.InsertElems | ams/routines/uc.py:189 | insertion adds exactly the new position |
| UnitCommitment.InsertSorted | ams/routines/uc.py:189 | insertion into an order sorted by score keeps it sorted |
| UnitCommitment.InsertDistinct | ams/routines/uc.py:189 | inserting a new position keeps positions distinct |
| UnitCommitment.InsertFacts | ams/routines/uc.py:189 | inserting into a sorted order keeps it sorted and adds exactly that position |
| UnitCommitment.SortPositions | ams/routines/uc.py:189 | sorting keeps the number of positions and their range |
| UnitCommitment.SortFacts | ams/routines/uc.py:189 | the sort is sorted by score, has the same elements, and keeps distinct positions distinct |
| UnitCommitment.Ranking | ams/routines/uc.py:189 | one entry per generator |
| UnitCommitment.RankingIsRanking | ams/routines/uc.py:189-192 | `sort_values(by='wsum')` lists every generator exactly once in ascending score |
| UnitCommitment.DistinctCard | ams/routines/uc.py:193 | a list without repeats has as many elements as entries |
| UnitCommitment.Guess | ams/routines/uc.py:173-195 | the guessed commitment has one status per generator |
| UnitCommitment.KeptWhenOneIsOff | ams/routines/uc.py:173-175 | with a generator already off, the commitment is left as it was |
| UnitCommitment.ExactlyTheCheapestOff | ams/routines/uc.py:189-195 | with every generator on, exactly `int(0.3*n)` generators are switched off: the first ones of the ranking |
| UnitCommitment.OffScoresBelowOn | ams/routines/uc.py:188-195 | every generator switched off scores no more than every generator left on, and those left on keep their status |
| UnitCommitment.UCModel.constructor | ams/routines/uc.py:167-201 | the model holds its commitment store, capacities and costs |
| UnitCommitment.UCModel.SwitchOff | ams/routines/uc.py:194-195 | each listed generator is switched off and the others keep their status |
| UnitCommitment.UCModel.InitialGuess | ams/routines/uc.py:167-197 | the commitment store becomes the guess over the generators' ranking, and True is returned |
| UnitCommitment.UCModel.ParentInitialize | ams/routines/uc.py:201 | the parent's `init` runs |
| UnitCommitment.UCModel.Init | ams/routines/uc.py:199-201 | `init` makes the guess, then runs the parent's `init` |
| RoutineRegistry.Values | ams/routines/__init__.py:22 | the table's value lists, in key insertion order |
| RoutineRegistry.AllRoutines | ams/routines/__init__.py:8-20 | `all_routines`: the eleven routine modules and the classes each defines, in insertion order |
| RoutineRegistry.ClassNames | ams/routines/__init__.py:22 | `class_names`: the table's class lists laid end to end in key order |
| RoutineRegistry.Cli | ams/routines/__init__.py:23 | the `OrderedDict` built from `(name.lower(), name)` pairs in list order, a later pair overwriting an earlier one with the same key |
| RoutineRegistry.RoutineCli | ams/routines/__init__.py:23 | `routine_cli`: that map over `class_names` |
| RoutineRegistry.ValuesListed | ams/routines/__init__.py:8-22 | the table's value lists, listed out in key order |
| RoutineRegistry.LaterNamesListed | ams/routines/__init__.py:14-22 | the last six lists of the table laid end to end |
| RoutineRegistry.EarlyNamesListed | ams/routines/__init__.py:9-13 | the first five lists of the table laid end to end |
| RoutineRegistry.LowerChar | ams/routines/__init__.py:23 | ASCII `lower` on one character |
| RoutineRegistry.Lower | ams/routines/__init__.py:23 | `lower` maps each character of a name |
| RoutineRegistry.LowerIsLower | ams/routines/__init__.py:23 | a lower-cased name has no upper-case letter |
| RoutineRegistry.CliKeys | ams/routines/__init__.py:23 | the map's keys are exactly the lower-cased names |
| RoutineRegistry.CliKeysAreLower | ams/routines/__init__.py:23 | every key of the map is lower-case |
| RoutineRegistry.CliFinds | ams/routines/__init__.py:23 | without collisions, a name's lower-cased key maps to the name |
| RoutineRegistry.CliSize | ams/routines/__init__.py:23 | without collisions, the map has one entry per name |
| RoutineRegistry.ClassNamesListed | ams/routines/__init__.py:8-22 | `class_names` is the table's lists laid end to end in key order |
| RoutineRegistry.ClassNamesCount | ams/routines/__init__.py:8-22 | `class_names` has as many names as the table's lists together, 19 |
| RoutineRegistry.LowersTo | ams/routines/__init__.py:23 | a name lowers to the string its characters lower to |
| RoutineRegistry.ClassNamesLowered | ams/routines/__init__.py:8-23 | the class names lower to the module-style names listed out |
| RoutineRegistry.LoweredNamesDistinct | ams/routines/__init__.py:8-23 | the lowered names are pairwise distinct |
| RoutineRegistry.ClassNamesDoNotCollide | ams/routines/__init__.py:8-23 | no two class names coincide after lower-casing |
| RoutineRegistry.RoutineCliFacts | ams/routines/__init__.py:8-23 | `routine_cli[name.lower()] == name` for every class name, every key is lower-case, and there are as many keys as class names |

## Left out

- PTDF, `Bdc` and `Cft` (floating-point linear algebra on the case data): the PTDF is an opaque list of columns, and `Cft` is not modelled.
- The solver (`system2ppc`, `rundcpf`, `runopf`): the result is a function of the system passed to `run`.
- Timing (`elapsed`, `exec_time`) and logging: no effect on the modelled state.
- `summary`, `report`, `__repr__`, `class_name`, `list2array`: presentation only.
- The bodies of `setup` and of the parent routine's `init`: they build the optimization model. They are recorded as steps (`setups`, `trace`).
- Floating-point rounding: values are exact reals. `deg2rad` is the double 0.017453292519943295 as a rational, and division by `baseMVA` is exact.
- DCPFlow.DCPFlowBase.Unpack, DCPFlow.DCPFlowBase.Run, ACOPFlow.ACOPFBase.Unpack, ACOPFlow.ACOPFBase.Run, RoutineUnpack.UnpackOutcome: require a nonzero `baseMVA`. NumPy would produce `inf`/`nan` for zero, and reals have no such values.
- UnitCommitment.OffCount: `int(0.3*n)` on doubles is modelled as the exact `(3n)/10`. The two agree for every generator count a case file can hold, but the model does not prove it.
- UnitCommitment.UCModel.InitialGuess: the sort is a stable insertion sort. pandas `sort_values` defaults to quicksort, which is not stable, so ties among equal scores may come out in another order. The properties about the guess are stated over any sorted ranking (`IsRanking`), so they hold whatever the tie order.
- UnitCommitment.UCModel: the generator ids, the `GCost.find_idx` lookup and the `StaticGen.set` dispatch are modelled by PV positions, a per-generator cost function and the commitment array. The value written is the number 0. The source writes `np.zeros_like(g_idx)`, which takes the dtype of the ids, so string ids would write `''` instead. The model does not capture this.
- DeviceModel.FlattenedKeys: models ANDES `list_flatten` as splicing only nested lists, and any other element after a leading list raises TypeError. `list_flatten` itself is not part of this model. A one-level concatenation would also splice a string element in character by character (`[['a'], 'bc']` gives the ids `'a'`, `'b'`, `'c'`), and it raises TypeError only for a number or `None`. The model does not capture the string case.
- ANDES groups (`GroupBase.get_idx`, `get`, `n`) are not part of this model. They are modelled as concatenations over the member models in member order.
- The key order of the `OrderedDict` `routine_cli`: the map is modelled without an order.
- `str.lower` is modelled for ASCII only. All registry names are ASCII.
- NumPy arrays of more than one dimension, and `idx` arguments that are NumPy scalar types, are not modelled separately: numbers are ints or floats.
- `NotImplementedError` for an `idx` of an unknown type: the argument type admits only `None`, a scalar or a sequence.
- ams/models/static.py, ams/routines/ed.py and ams/solver/pypower/runopf.py are not part of this model.
