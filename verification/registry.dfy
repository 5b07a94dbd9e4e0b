/** The component registry: a process-wide, insertion-ordered map from
    component name to component, filled as each component module is
    imported. The component itself is opaque here (type parameter `C`). */
module Registry {
  import opened Wrappers
  import Dicts

  type Registry<C> = Dicts.Dict<C>

  /** The registry at import time, before any component registers. */
  function Empty<C>(): (reg: Registry<C>)
    ensures Dicts.Valid(reg) && ListComponents(reg) == []
  {
    Dicts.Empty()
  }

  /** `register_component`: inserts the name, or overwrites its component. */
  function RegisterComponent<C>(reg: Registry<C>, name: string, component: C): (reg': Registry<C>)
    ensures GetComponent(reg', name) == Some(component)
    ensures forall other :: other != name ==> GetComponent(reg', other) == GetComponent(reg, other)
    ensures Dicts.Valid(reg) ==> Dicts.Valid(reg')
    ensures name in reg.entries ==> ListComponents(reg') == ListComponents(reg)
    ensures name !in reg.entries ==> ListComponents(reg') == ListComponents(reg) + [name]
  {
    Dicts.Put(reg, name, component)
  }

  /** `list_components`: the registered names in first-registration order,
      each exactly once. */
  function ListComponents<C>(reg: Registry<C>): (r: seq<string>)
    ensures Dicts.Valid(reg) ==> forall n :: n in r <==> n in reg.entries
    ensures Dicts.Valid(reg) ==> forall i, j :: 0 <= i < j < |r| ==> r[i] != r[j]
  {
    reg.keys
  }

  /** `get_component`: the registered component, or `None`. */
  function GetComponent<C>(reg: Registry<C>, name: string): (r: Option<C>)
    ensures Dicts.Valid(reg) ==> (r.None? <==> name !in ListComponents(reg))
  {
    Dicts.Lookup(reg, name)
  }

  /** Registers a sequence of (name, component) pairs in order. */
  function RegisterAll<C>(reg: Registry<C>, regs: seq<(string, C)>): Registry<C>
    decreases |regs|
  {
    if regs == [] then reg else RegisterAll(RegisterComponent(reg, regs[0].0, regs[0].1), regs[1..])
  }

  /** The names registered by a sequence of registrations, each at its
      first occurrence. */
  function FirstOccurrences<C>(names: seq<string>, regs: seq<(string, C)>): seq<string>
    decreases |regs|
  {
    if regs == [] then names
    else FirstOccurrences(if regs[0].0 in names then names else names + [regs[0].0], regs[1..])
  }

  /** Starting from any valid registry, a sequence of registrations lists
      exactly the names already present followed by the new names in
      first-registration order, each once. */
  lemma {:induction false} RegisterAllLists<C>(reg: Registry<C>, regs: seq<(string, C)>)
    requires Dicts.Valid(reg)
    ensures Dicts.Valid(RegisterAll(reg, regs))
    ensures ListComponents(RegisterAll(reg, regs)) == FirstOccurrences(ListComponents(reg), regs)
    decreases |regs|
  {
    if regs != [] {
      var reg1 := RegisterComponent(reg, regs[0].0, regs[0].1);
      RegisterAllLists(reg1, regs[1..]);
      assert regs[0].0 in reg.entries <==> regs[0].0 in ListComponents(reg);
    }
  }

  /** After a sequence of registrations, each name maps to the component of
      its last registration. */
  lemma {:induction false} RegisterAllLastWins<C>(reg: Registry<C>, regs: seq<(string, C)>, i: nat)
    requires i < |regs|
    requires forall j :: i < j < |regs| ==> regs[j].0 != regs[i].0
    ensures GetComponent(RegisterAll(reg, regs), regs[i].0) == Some(regs[i].1)
    decreases |regs|
  {
    var reg1 := RegisterComponent(reg, regs[0].0, regs[0].1);
    if i == 0 {
      RegisterAllKeeps(reg1, regs[1..], regs[0].0);
    } else {
      assert regs[1..][i - 1] == regs[i];
      RegisterAllLastWins(reg1, regs[1..], i - 1);
    }
  }

  /** Registrations of other names do not disturb a name's entry. */
  lemma {:induction false} RegisterAllKeeps<C>(reg: Registry<C>, regs: seq<(string, C)>, name: string)
    requires forall j :: 0 <= j < |regs| ==> regs[j].0 != name
    ensures GetComponent(RegisterAll(reg, regs), name) == GetComponent(reg, name)
    decreases |regs|
  {
    if regs != [] {
      RegisterAllKeeps(RegisterComponent(reg, regs[0].0, regs[0].1), regs[1..], name);
    }
  }
}
