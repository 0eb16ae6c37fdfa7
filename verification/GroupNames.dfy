/** Groups have a local id on each node: the same group is matched by its name across nodes. */
module GroupNames {
  import opened Common
  import opened Text
  import opened Sorting

  datatype Group = Group(name: string, id: nat, enabled: bool, comment: string)

  /** The database of a node keeps names and ids unique. */
  ghost predicate WellFormed(groups: seq<Group>)
  {
    forall i, j :: 0 <= i < j < |groups| ==> groups[i].name != groups[j].name && groups[i].id != groups[j].id
  }

  /** `name_to_id` */
  function IdOf(groups: seq<Group>, name: string): (r: Option<nat>)
    ensures r.Some? ==> exists g :: g in groups && g.name == name && g.id == r.value
    ensures r.None? ==> forall g :: g in groups ==> g.name != name
  {
    if groups == [] then None
    else if groups[|groups| - 1].name == name then Some(groups[|groups| - 1].id)
    else IdOf(groups[..|groups| - 1], name)
  }

  /** `id_to_name` */
  function NameOf(groups: seq<Group>, id: nat): (r: Option<string>)
    ensures r.Some? ==> exists g :: g in groups && g.id == id && g.name == r.value
    ensures r.None? ==> forall g :: g in groups ==> g.id != id
  {
    if groups == [] then None
    else if groups[|groups| - 1].id == id then Some(groups[|groups| - 1].name)
    else NameOf(groups[..|groups| - 1], id)
  }

  predicate Knows(groups: seq<Group>, name: string)
  {
    IdOf(groups, name).Some?
  }

  /** An id without a group is shown with a hash sign. */
  function Shown(groups: seq<Group>, id: nat): string
  {
    NameOf(groups, id).GetOr("#" + NatText(id))
  }

  /** An id of no group is shown as its number. */
  lemma UnknownShown(groups: seq<Group>, id: nat)
    requires forall g :: g in groups ==> g.id != id
    ensures Shown(groups, id) == "#" + NatText(id) && ParseNat(NatText(id)) == id
  {
    ParseNatText(id);
  }

  function NamesOf(groups: seq<Group>, ids: seq<nat>): seq<string>
  {
    Sort(Map(ids, id => Shown(groups, id)), StringLeq)
  }

  function IdsOf(groups: seq<Group>, names: seq<string>): seq<nat>
  {
    FilterMap(names, name => IdOf(groups, name))
  }

  function KnownOf(groups: seq<Group>, names: seq<string>): seq<string>
  {
    Filter(names, name => Knows(groups, name))
  }

  function MissingOf(groups: seq<Group>, names: seq<string>): seq<string>
  {
    Filter(names, name => !Knows(groups, name))
  }

  lemma NameOfId(groups: seq<Group>, name: string)
    requires WellFormed(groups) && Knows(groups, name)
    ensures Shown(groups, IdOf(groups, name).value) == name
  {
    var id := IdOf(groups, name).value;
    var g :| g in groups && g.name == name && g.id == id;
    var h :| h in groups && h.id == id && h.name == NameOf(groups, id).value;
    assert g == h;
  }

  lemma IdOfName(groups: seq<Group>, id: nat)
    requires WellFormed(groups) && NameOf(groups, id).Some?
    ensures IdOf(groups, Shown(groups, id)) == Some(id)
  {
    var name := NameOf(groups, id).value;
    var g :| g in groups && g.id == id && g.name == name;
    var h :| h in groups && h.name == name && h.id == IdOf(groups, name).value;
    assert g == h;
  }

  lemma {:induction false} ThereAndBack(groups: seq<Group>, names: seq<string>)
    requires WellFormed(groups)
    ensures Map(IdsOf(groups, names), id => Shown(groups, id)) == KnownOf(groups, names)
  {
    if names != [] {
      hide WellFormed, Shown, IdOf, Map;
      ThereAndBack(groups, names[1..]);
      var shown := id => Shown(groups, id);
      var ids := IdsOf(groups, names);
      assert IdsOf(groups, names[1..]) == if Knows(groups, names[0]) then ids[1..] else ids;
      if Knows(groups, names[0]) {
        NameOfId(groups, names[0]);
        MapCons(ids, shown);
        assert ids[0] == IdOf(groups, names[0]).value;
      }
    }
  }

  lemma {:induction false} FilterKeepsOrder(s: seq<string>, p: string -> bool)
    requires Sorted(s, StringLeq)
    ensures Sorted(Filter(s, p), StringLeq)
  {
    hide StringLeq;
    if s != [] {
      FilterKeepsOrder(s[1..], p);
      var r := Filter(s[1..], p);
      forall x | x in r ensures StringLeq(s[0], x) {
        var i :| 0 <= i < |s[1..]| && s[1..][i] == x;
        assert s[i + 1] == x;
      }
    }
  }

  /** Names to ids and back on a node: exactly the names known there stay, in order; the others are
      the ones reported missing. */
  lemma TranslationKeepsKnown(groups: seq<Group>, names: seq<string>)
    requires WellFormed(groups) && Sorted(names, StringLeq)
    ensures NamesOf(groups, IdsOf(groups, names)) == KnownOf(groups, names)
    ensures multiset(KnownOf(groups, names)) + multiset(MissingOf(groups, names)) == multiset(names)
    ensures MissingOf(groups, names) == [] <==> KnownOf(groups, names) == names
  {
    hide WellFormed, IdOf, StringLeq;
    ThereAndBack(groups, names);
    FilterKeepsOrder(names, name => Knows(groups, name));
    SortIdle(KnownOf(groups, names), StringLeq);
    Partition(names, name => Knows(groups, name), name => !Knows(groups, name));
  }

  lemma {:induction false} Partition(s: seq<string>, p: string -> bool, q: string -> bool)
    requires forall x :: p(x) <==> !q(x)
    ensures multiset(Filter(s, p)) + multiset(Filter(s, q)) == multiset(s)
    ensures Filter(s, q) == [] <==> Filter(s, p) == s
  {
    if s != [] {
      Partition(s[1..], p, q);
      assert s == [s[0]] + s[1..];
    }
  }

  lemma NamesAreSorted(groups: seq<Group>, ids: seq<nat>)
    ensures Sorted(NamesOf(groups, ids), StringLeq)
  {
    hide StringLeq, Shown;
    StringOrder();
    SortSorts(Map(ids, id => Shown(groups, id)), StringLeq);
  }

  /** Every id known on its own node shows a name known there. */
  lemma NamesAreKnown(groups: seq<Group>, ids: seq<nat>, name: string)
    requires WellFormed(groups) && name in NamesOf(groups, ids)
    requires forall i :: 0 <= i < |ids| ==> NameOf(groups, ids[i]).Some?
    ensures Knows(groups, name)
  {
    hide StringLeq, WellFormed;
    var shown := Map(ids, id => Shown(groups, id));
    SortMembers(shown, StringLeq);
    var i :| 0 <= i < |shown| && shown[i] == name;
    IdOfName(groups, ids[i]);
  }
}
