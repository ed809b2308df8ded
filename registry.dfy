/** The routine registry (`ams.routines`): the table of routine modules and
    the classes each one defines, the flattened list of class names, and the
    command-line map from a lower-cased name to its class name. */
module RoutineRegistry {
  import ListFlatten

  /** `all_routines`: module name and its routine classes, in insertion
      order. */
  const AllRoutines: seq<(string, seq<string>)> := [
    ("dcpf", ["DCPF"]),
    ("pflow", ["PFlow"]),
    ("cpf", ["CPF"]),
    ("acopf", ["ACOPF"]),
    ("dcopf", ["DCOPF"]),
    ("ed", ["ED", "EDDG", "EDES"]),
    ("rted", ["RTED", "RTEDDG", "RTEDES", "RTEDVIS"]),
    ("uc", ["UC", "UCDG", "UCES"]),
    ("dopf", ["DOPF", "DOPFVIS"]),
    ("pflow0", ["PFlow0"]),
    ("dcpf2", ["DCPF2"])
  ]

  /** `list(all_routines.values())`, in key order. */
  function Values(table: seq<(string, seq<string>)>): (vs: seq<seq<string>>)
    ensures |vs| == |table| && forall i | 0 <= i < |table| :: vs[i] == table[i].1
  {
    seq(|table|, i requires 0 <= i < |table| => table[i].1)
  }

  /** `class_names` */
  function ClassNames(): seq<string> {
    ListFlatten.Flatten(Values(AllRoutines))
  }

  // ------------------------------------------------------------ lowering

  /** `str.lower` on one character; the registry's names are ASCII. */
  function LowerChar(c: char): (d: char)
    ensures 'A' <= c <= 'Z' ==> d as int == c as int + 32
    ensures !('A' <= c <= 'Z') ==> d == c
  {
    if 'A' <= c <= 'Z' then (c as int + 32) as char else c
  }

  function Lower(s: string): (t: string)
    ensures |t| == |s| && forall i | 0 <= i < |s| :: t[i] == LowerChar(s[i])
  {
    seq(|s|, i requires 0 <= i < |s| => LowerChar(s[i]))
  }

  /** A string with no upper-case ASCII letter. */
  predicate IsLower(s: string) {
    forall i | 0 <= i < |s| :: !('A' <= s[i] <= 'Z')
  }

  /** No two names of the list coincide once lower-cased. */
  predicate NoCollision(names: seq<string>) {
    forall i, j | 0 <= i < j < |names| :: Lower(names[i]) != Lower(names[j])
  }

  /** `OrderedDict([(item.lower(), item) for item in names])`: the pairs
      are inserted in list order, a later name overwriting an earlier one
      with the same lower-cased key. The key order is not modelled. */
  function Cli(names: seq<string>): map<string, string> {
    if names == [] then map[]
    else Cli(names[..|names| - 1])[Lower(names[|names| - 1]) := names[|names| - 1]]
  }

  /** `routine_cli` */
  function RoutineCli(): map<string, string> {
    Cli(ClassNames())
  }

  // ----------------------------------------------------- properties of Cli

  /** Lower-casing leaves nothing upper-case. */
  lemma LowerIsLower(s: string)
    ensures IsLower(Lower(s))
  {
    forall i | 0 <= i < |s| ensures !('A' <= Lower(s)[i] <= 'Z') {
      var c := s[i];
      if 'A' <= c <= 'Z' {
        assert Lower(s)[i] as int == c as int + 32;
      }
    }
  }

  /** The keys of the map are exactly the lower-cased names. */
  lemma {:induction false} CliKeys(names: seq<string>)
    ensures Cli(names).Keys == set i | 0 <= i < |names| :: Lower(names[i])
  {
    if names != [] {
      var pre := names[..|names| - 1];
      CliKeys(pre);
      var a := set i | 0 <= i < |pre| :: Lower(pre[i]);
      var b := set i | 0 <= i < |names| :: Lower(names[i]);
      assert b == a + {Lower(names[|names| - 1])} by {
        forall k | k in b ensures k in a + {Lower(names[|names| - 1])} {
          var i :| 0 <= i < |names| && Lower(names[i]) == k;
          if i < |pre| {
            assert pre[i] == names[i];
          }
        }
        forall k | k in a ensures k in b {
          var i :| 0 <= i < |pre| && Lower(pre[i]) == k;
          assert names[i] == pre[i];
        }
      }
    }
  }

  /** Every key of the map is lower-case. */
  lemma CliKeysAreLower(names: seq<string>)
    ensures forall k | k in Cli(names) :: IsLower(k)
  {
    CliKeys(names);
    forall k | k in Cli(names) ensures IsLower(k) {
      var i :| 0 <= i < |names| && Lower(names[i]) == k;
      LowerIsLower(names[i]);
    }
  }

  /** A lookup by a lower-cased name gives the last name of the list with
      that key; without collisions, the name itself. */
  lemma {:induction false} CliFinds(names: seq<string>, i: nat)
    requires i < |names|
    requires NoCollision(names)
    ensures Lower(names[i]) in Cli(names)
    ensures Cli(names)[Lower(names[i])] == names[i]
  {
    var pre, last := names[..|names| - 1], names[|names| - 1];
    if i < |pre| {
      assert pre[i] == names[i];
      assert NoCollision(pre) by {
        forall a, b | 0 <= a < b < |pre| ensures Lower(pre[a]) != Lower(pre[b]) {
          assert pre[a] == names[a] && pre[b] == names[b];
        }
      }
      CliFinds(pre, i);
      assert Lower(names[i]) != Lower(last);
    }
  }

  /** Without collisions the map has one entry per name. */
  lemma {:induction false} CliSize(names: seq<string>)
    requires NoCollision(names)
    ensures |Cli(names)| == |names|
  {
    if names != [] {
      var pre, last := names[..|names| - 1], names[|names| - 1];
      assert NoCollision(pre) by {
        forall a, b | 0 <= a < b < |pre| ensures Lower(pre[a]) != Lower(pre[b]) {
          assert pre[a] == names[a] && pre[b] == names[b];
        }
      }
      CliSize(pre);
      CliKeys(pre);
      forall i | 0 <= i < |pre| ensures Lower(pre[i]) != Lower(last) {
        assert names[i] == pre[i];
      }
      assert Lower(last) !in Cli(pre);
    }
  }

  // ------------------------------------------------------ the registry

  /** The table's value lists, listed out. */
  lemma ValuesListed()
    ensures Values(AllRoutines) == [["DCPF"], ["PFlow"], ["CPF"], ["ACOPF"], ["DCOPF"],
      ["ED", "EDDG", "EDES"], ["RTED", "RTEDDG", "RTEDES", "RTEDVIS"],
      ["UC", "UCDG", "UCES"], ["DOPF", "DOPFVIS"], ["PFlow0"], ["DCPF2"]]
  {
  }

  /** The last six lists of the table, laid end to end. */
  lemma LaterNamesListed()
    ensures ListFlatten.Flatten(Values(AllRoutines)[5..]) == ["ED", "EDDG", "EDES",
      "RTED", "RTEDDG", "RTEDES", "RTEDVIS", "UC", "UCDG", "UCES", "DOPF", "DOPFVIS", "PFlow0", "DCPF2"]
  {
    ValuesListed();
    var vs := Values(AllRoutines)[5..];
    assert ListFlatten.Flatten(vs[5..]) == ["DCPF2"];
    assert ListFlatten.Flatten(vs[4..]) == ["PFlow0", "DCPF2"];
    assert ListFlatten.Flatten(vs[3..]) == ["DOPF", "DOPFVIS", "PFlow0", "DCPF2"];
    assert ListFlatten.Flatten(vs[2..]) == ["UC", "UCDG", "UCES"] + ListFlatten.Flatten(vs[3..]);
    assert ListFlatten.Flatten(vs[1..]) == ["RTED", "RTEDDG", "RTEDES", "RTEDVIS"] + ListFlatten.Flatten(vs[2..]);
  }

  /** The first five lists of the table, laid end to end. */
  lemma EarlyNamesListed()
    ensures ListFlatten.Flatten(Values(AllRoutines)[..5]) == ["DCPF", "PFlow", "CPF", "ACOPF", "DCOPF"]
  {
    ValuesListed();
    var vs := Values(AllRoutines)[..5];
    assert ListFlatten.Flatten(vs[4..]) == ["DCOPF"];
    assert ListFlatten.Flatten(vs[2..]) == ["CPF", "ACOPF"] + ListFlatten.Flatten(vs[4..]);
  }

  /** The class names listed out: the table's lists laid end to end. */
  lemma ClassNamesListed()
    ensures ClassNames() == ["DCPF", "PFlow", "CPF", "ACOPF", "DCOPF",
      "ED", "EDDG", "EDES", "RTED", "RTEDDG", "RTEDES", "RTEDVIS",
      "UC", "UCDG", "UCES", "DOPF", "DOPFVIS", "PFlow0", "DCPF2"]
  {
    var vs := Values(AllRoutines);
    assert vs == vs[..5] + vs[5..];
    ListFlatten.FlattenAppend(vs[..5], vs[5..]);
    EarlyNamesListed();
    LaterNamesListed();
  }

  /** `class_names` has one entry per routine class of the table. */
  lemma ClassNamesCount()
    ensures |ClassNames()| == ListFlatten.TotalLength(Values(AllRoutines)) == 19
  {
    ListFlatten.FlattenLength(Values(AllRoutines));
    ClassNamesListed();
  }

  lemma LowersTo(s: string, t: string)
    requires |s| == |t| && forall i | 0 <= i < |s| :: LowerChar(s[i]) == t[i]
    ensures Lower(s) == t
  {
  }

  /** The lower-cased class names, listed out. */
  const LoweredNames: seq<string> := ["dcpf", "pflow", "cpf", "acopf", "dcopf", "ed", "eddg", "edes", "rted", "rteddg", "rtedes", "rtedvis", "uc", "ucdg", "uces", "dopf", "dopfvis", "pflow0", "dcpf2"]

  lemma ClassNamesLowered()
    ensures |ClassNames()| == |LoweredNames|
    ensures forall i | 0 <= i < |ClassNames()| :: Lower(ClassNames()[i]) == LoweredNames[i]
  {
    ClassNamesListed();
    LowersTo("DCPF", "dcpf");
    LowersTo("PFlow", "pflow");
    LowersTo("CPF", "cpf");
    LowersTo("ACOPF", "acopf");
    LowersTo("DCOPF", "dcopf");
    LowersTo("ED", "ed");
    LowersTo("EDDG", "eddg");
    LowersTo("EDES", "edes");
    LowersTo("RTED", "rted");
    LowersTo("RTEDDG", "rteddg");
    LowersTo("RTEDES", "rtedes");
    LowersTo("RTEDVIS", "rtedvis");
    LowersTo("UC", "uc");
    LowersTo("UCDG", "ucdg");
    LowersTo("UCES", "uces");
    LowersTo("DOPF", "dopf");
    LowersTo("DOPFVIS", "dopfvis");
    LowersTo("PFlow0", "pflow0");
    LowersTo("DCPF2", "dcpf2");
  }

  lemma LoweredNamesDistinct()
    ensures forall i, j | 0 <= i < j < |LoweredNames| :: LoweredNames[i] != LoweredNames[j]
  {
  }

  /** No two class names coincide once lower-cased. */
  lemma ClassNamesDoNotCollide()
    ensures NoCollision(ClassNames())
  {
    ClassNamesLowered();
    LoweredNamesDistinct();
  }

  /** `routine_cli[name.lower()] == name` for every class name, every key is
      lower-case, and there are as many keys as class names. */
  lemma RoutineCliFacts()
    ensures forall i | 0 <= i < |ClassNames()| ::
      Lower(ClassNames()[i]) in RoutineCli() && RoutineCli()[Lower(ClassNames()[i])] == ClassNames()[i]
    ensures forall k | k in RoutineCli() :: IsLower(k)
    ensures |RoutineCli()| == |ClassNames()|
  {
    ClassNamesDoNotCollide();
    forall i | 0 <= i < |ClassNames()|
      ensures Lower(ClassNames()[i]) in RoutineCli() && RoutineCli()[Lower(ClassNames()[i])] == ClassNames()[i]
    {
      CliFinds(ClassNames(), i);
    }
    CliKeysAreLower(ClassNames());
    CliSize(ClassNames());
  }
}
