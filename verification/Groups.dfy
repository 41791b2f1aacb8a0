/** Group and GroupManager: the groups by id, and the index from an account to the groups it is in. The group map
    is the state; the index is a second copy of the membership relation that every operation has to keep. */
module Groups {

  import opened Collections

  type Account = string
  type GroupId = string

  datatype Role = Member | Admin | Owner

  datatype Group = Group(owner: Account, members: map<Account, Role>)

  datatype JoinResult = Joined | AlreadyIn | NoGroupToJoin

  datatype QuitResult = Left | NotInGroup | NoGroupToLeave

  /** A stored membership row, with the role as the byte in the table. */
  datatype Record = Record(account: Account, role: nat)

  type GroupMap = map<GroupId, Group>
  type Index = map<Account, set<GroupId>>

  // ---------------------------------------------------------------------------------------------
  // Group: each operation returns the changed group and whether it succeeded

  function AddMember(g: Group, a: Account, role: Role): (Group, bool) {
    if a == "" || a in g.members then (g, false) else (g.(members := g.members[a := role]), true)
  }

  function RemoveMember(g: Group, a: Account): (Group, bool) {
    if a !in g.members || a == g.owner then (g, false) else (g.(members := g.members - {a}), true)
  }

  function SetRole(g: Group, a: Account, role: Role): (Group, bool) {
    if a == g.owner || role == Owner || a !in g.members then (g, false)
    else (g.(members := g.members[a := role]), true)
  }

  function TransferOwner(g: Group, from: Account, to: Account): (Group, bool) {
    if from == to || g.owner != from || from !in g.members || to !in g.members then (g, false)
    else (Group(to, g.members[from := Member][to := Owner]), true)
  }

  function RoleFromUint(role: nat): Option<Role> {
    match role
    case 0 => Some(Member)
    case 1 => Some(Admin)
    case 2 => Some(Owner)
    case _ => None
  }

  /** The group has exactly one member with the Owner role, and that member is its owner. */
  ghost predicate OneOwner(g: Group) {
    && g.owner in g.members
    && (forall a :: a in g.members ==> (g.members[a] == Owner <==> a == g.owner))
    && "" !in g.members
  }

  lemma GroupOperationsKeepOneOwner(g: Group, a: Account, b: Account, role: Role)
    requires OneOwner(g)
    ensures role != Owner ==> OneOwner(AddMember(g, a, role).0)
    ensures OneOwner(RemoveMember(g, a).0) && OneOwner(SetRole(g, a, role).0) && OneOwner(TransferOwner(g, a, b).0)
  {
  }

  // ---------------------------------------------------------------------------------------------
  // The relation the index copies

  predicate IsMember(groups: GroupMap, id: GroupId, a: Account) {
    id in groups && a in groups[id].members
  }

  predicate Lists(index: Index, a: Account, id: GroupId) {
    a in index && id in index[a]
  }

  ghost predicate NoEmptySets(index: Index) {
    forall a :: a in index ==> index[a] != {}
  }

  /** groupsOfUser(a) is exactly the set of groups whose member map contains a. */
  ghost predicate Mirrors(groups: GroupMap, index: Index) {
    && NoEmptySets(index)
    && (forall a, id :: Lists(index, a, id) <==> IsMember(groups, id, a))
  }

  ghost predicate AllOneOwner(groups: GroupMap) {
    forall id :: id in groups ==> OneOwner(groups[id])
  }

  // ---------------------------------------------------------------------------------------------
  // restoreGroup on arbitrary records

  /** restoreGroup refuses the records exactly when one with an account has an unknown role, or claims the Owner
      role for someone else. */
  ghost predicate Restorable(owner: Account, records: seq<Record>) {
    forall i :: 0 <= i < |records| && records[i].account != "" ==>
      records[i].role <= 2 && (records[i].role == 2 ==> records[i].account == owner)
  }

  predicate IsFirst(records: seq<Record>, i: nat)
    requires i < |records|
  {
    forall j :: 0 <= j < i ==> records[j].account != records[i].account
  }

  /** Apart from the owner, the members are the accounts of the records, each with the role of its first one. */
  ghost predicate MembersFrom(members: map<Account, Role>, owner: Account, records: seq<Record>) {
    && (forall a :: a in members && a != owner ==> a != "" && exists i :: 0 <= i < |records| && records[i].account == a)
    && (forall i :: 0 <= i < |records| && records[i].account != "" ==> records[i].account in members)
    && (forall i :: 0 <= i < |records| && records[i].account !in {"", owner} && IsFirst(records, i) ==>
          members[records[i].account] == if records[i].role == 1 then Admin else Member)
    && (owner in members ==> members[owner] == Owner)
  }

  /** The group as far as the records seen have built it. */
  ghost predicate Building(g: Group, owner: Account, seen: seq<Record>) {
    && g.owner == owner && Restorable(owner, seen) && MembersFrom(g.members, owner, seen)
    && forall a :: a in g.members ==> a != "" && (g.members[a] == Owner <==> a == owner)
  }

  /** One turn of the loop over the records. */
  method TakeRecord(g: Group, owner: Account, record: Record, ghost seen: seq<Record>) returns (r: Option<Group>)
    requires owner != "" && Building(g, owner, seen)
    ensures r.Some? ==> Building(r.value, owner, seen + [record])
    ensures r.None? ==> !Restorable(owner, seen + [record])
  {
    if record.account == "" {
      BlankRecord(g.members, owner, seen, record);
      return Some(g);
    }
    var role := RoleFromUint(record.role);
    if role.None? || (role.value == Owner && record.account != owner) {
      assert (seen + [record])[|seen|] == record;
      return None;
    }
    var next := AddMember(g, record.account, if record.account == owner then Owner else role.value).0;
    RecordAdded(g.members, next.members, owner, seen, record);
    r := Some(next);
  }

  /** The loop of restoreGroup that rebuilds the member map, with the owner added at the end when no record
      names them. */
  method BuildMembers(owner: Account, records: seq<Record>) returns (r: Option<Group>)
    requires owner != ""
    ensures r.Some? <==> Restorable(owner, records)
    ensures r.Some? ==> r.value.owner == owner && OneOwner(r.value) && MembersFrom(r.value.members, owner, records)
  {
    var g := Group(owner, map[]);
    for i := 0 to |records|
      invariant Building(g, owner, records[..i])
    {
      assert records[..i + 1] == records[..i] + [records[i]];
      var next := TakeRecord(g, owner, records[i], records[..i]);
      if next.None? {
        assert forall j :: 0 <= j <= i ==> records[..i + 1][j] == records[j];
        return None;
      }
      g := next.value;
    }
    assert records[..|records|] == records;
    if owner !in g.members {
      g := AddMember(g, owner, Owner).0;
    }
    r := Some(g);
  }

  lemma FirstIn(records: seq<Record>, record: Record, i: nat)
    requires i < |records|
    ensures IsFirst(records + [record], i) <==> IsFirst(records, i)
  {
    var more := records + [record];
    assert forall j :: 0 <= j <= i ==> more[j] == records[j];
  }

  lemma SeenIsNotFirst(records: seq<Record>, record: Record, j: nat)
    requires j < |records| && records[j].account == record.account
    ensures !IsFirst(records + [record], |records|)
  {
    assert (records + [record])[j] == records[j];
  }

  lemma RecordAdded(was: map<Account, Role>, members: map<Account, Role>, owner: Account, records: seq<Record>,
                    record: Record)
    requires owner != "" && MembersFrom(was, owner, records) && record.account != "" && record.role <= 2
    requires record.role == 2 ==> record.account == owner
    requires forall a :: a in was ==> a != ""
    requires members == if record.account in was then was
                        else was[record.account := if record.account == owner then Owner
                                                   else if record.role == 1 then Admin else Member]
    ensures MembersFrom(members, owner, records + [record])
  {
    var more := records + [record];
    assert more[|records|] == record;
    forall a | a in members && a != owner ensures exists i :: 0 <= i < |more| && more[i].account == a {
      if a != record.account {
        var i :| 0 <= i < |records| && records[i].account == a;
        assert more[i].account == a;
      }
    }
    forall i | 0 <= i < |more| && more[i].account !in {"", owner} && IsFirst(more, i)
      ensures more[i].account in members && members[more[i].account] == if more[i].role == 1 then Admin else Member
    {
      if i < |records| {
        FirstIn(records, record, i);
      } else if record.account in was {
        var j :| 0 <= j < |records| && records[j].account == record.account;
        SeenIsNotFirst(records, record, j);
      }
    }
  }

  lemma BlankRecord(members: map<Account, Role>, owner: Account, records: seq<Record>, record: Record)
    requires MembersFrom(members, owner, records) && record.account == ""
    ensures MembersFrom(members, owner, records + [record])
  {
    var more := records + [record];
    forall a | a in members && a != owner ensures exists i :: 0 <= i < |more| && more[i].account == a {
      var i :| 0 <= i < |records| && records[i].account == a;
      assert more[i].account == a;
    }
    forall i | 0 <= i < |records| ensures IsFirst(more, i) <==> IsFirst(records, i) {
      FirstIn(records, record, i);
    }
  }

  // ---------------------------------------------------------------------------------------------
  // The class

  class GroupManager {
    var groups: GroupMap
    var index: Index

    ghost predicate Valid()
      reads this
    {
      Mirrors(groups, index) && AllOneOwner(groups)
    }

    constructor ()
      ensures Valid() && groups == map[]
    {
      groups, index := map[], map[];
    }

    /** accountIdGroups_[a].insert(id) */
    method Insert(a: Account, id: GroupId)
      requires NoEmptySets(index)
      modifies this`index
      ensures NoEmptySets(index)
      ensures forall b, h :: Lists(index, b, h) <==> old(Lists(index, b, h)) || (b == a && h == id)
    {
      index := index[a := (if a in index then index[a] else {}) + {id}];
    }

    /** Takes id out of the account's set, and the set out of the index when that empties it. */
    method Delete(a: Account, id: GroupId)
      requires NoEmptySets(index)
      modifies this`index
      ensures NoEmptySets(index)
      ensures forall b, h :: Lists(index, b, h) <==> old(Lists(index, b, h)) && !(b == a && h == id)
    {
      if a in index {
        var rest := index[a] - {id};
        assert forall h :: h in index[a] <==> h in rest || (h == id && Lists(index, a, id));
        index := if rest == {} then index - {a} else index[a := rest];
      }
    }

    method CreateGroup(id: GroupId, owner: Account, name: string) returns (ok: bool)
      requires Valid()
      modifies this
      ensures Valid()
      ensures ok <==> id != "" && owner != "" && name != "" && id !in old(groups)
      ensures groups == if ok then old(groups)[id := Group(owner, map[owner := Owner])] else old(groups)
    {
      if id == "" || owner == "" || name == "" {
        return false;
      }
      var (g, added) := AddMember(Group(owner, map[]), owner, Owner);
      if !added || id in groups {
        return false;
      }
      groups := groups[id := g];
      Insert(owner, id);
      ok := true;
    }

    method JoinGroup(id: GroupId, a: Account) returns (r: JoinResult)
      requires Valid()
      modifies this
      ensures Valid()
      ensures r == if id !in old(groups) then NoGroupToJoin
                   else if a == "" || a in old(groups)[id].members then AlreadyIn else Joined
      ensures groups == if r != Joined then old(groups)
                        else old(groups)[id := old(groups)[id].(members := old(groups)[id].members[a := Member])]
    {
      if id !in groups {
        return NoGroupToJoin;
      }
      var (g, added) := AddMember(groups[id], a, Member);
      if a in groups[id].members || !added {
        return AlreadyIn;
      }
      groups := groups[id := g];
      Insert(a, id);
      r := Joined;
    }

    method LeaveGroup(id: GroupId, a: Account) returns (r: QuitResult)
      requires Valid()
      modifies this
      ensures Valid()
      ensures r == if id !in old(groups) then NoGroupToLeave
                   else if a !in old(groups)[id].members || a == old(groups)[id].owner then NotInGroup else Left
      ensures groups == if r == Left then old(groups)[id := old(groups)[id].(members := old(groups)[id].members - {a})]
                        else old(groups)
    {
      if id !in groups {
        return NoGroupToLeave;
      }
      var (g, removed) := RemoveMember(groups[id], a);
      if !removed {
        return NotInGroup;
      }
      groups := groups[id := g];
      Delete(a, id);
      r := Left;
    }

    method RemoveMemberOf(id: GroupId, a: Account) returns (ok: bool)
      requires Valid()
      modifies this
      ensures Valid()
      ensures ok <==> id != "" && a != "" && IsMember(old(groups), id, a) && a != old(groups)[id].owner
      ensures groups == if ok then old(groups)[id := old(groups)[id].(members := old(groups)[id].members - {a})]
                        else old(groups)
    {
      if id == "" || a == "" {
        return false;
      }
      if id in groups {
        var (g, removed) := RemoveMember(groups[id], a);
        if removed {
          groups := groups[id := g];
          Delete(a, id);
          return true;
        }
      }
      ok := false;
    }

    /** The loop that takes the group out of its members' index sets; the group itself is still in the map. */
    method Unlist(id: GroupId)
      requires Valid() && id in groups
      modifies this`index
      ensures Mirrors(groups - {id}, index)
    {
      var left := groups[id].members.Keys;
      while left != {}
        invariant NoEmptySets(index)
        invariant left <= groups[id].members.Keys
        invariant forall a, h :: Lists(index, a, h) <==> IsMember(groups, h, a) && (h != id || a in left)
        decreases left
      {
        var a := AnyOf(left);
        Delete(a, id);
        left := left - {a};
      }
    }

    method RemoveGroup(id: GroupId) returns (ok: bool)
      requires Valid()
      modifies this
      ensures Valid()
      ensures ok <==> id in old(groups)
      ensures groups == old(groups) - {id}
    {
      if id !in groups {
        return false;
      }
      Unlist(id);
      groups := groups - {id};
      ok := true;
    }

    /** The loop that lists a group under each of its members before it is stored. */
    method ListMembers(id: GroupId, g: Group)
      requires Mirrors(groups, index) && id !in groups
      modifies this`index
      ensures Mirrors(groups[id := g], index)
    {
      var left := g.members.Keys;
      while left != {}
        invariant NoEmptySets(index)
        invariant left <= g.members.Keys
        invariant forall a, h :: Lists(index, a, h) <==>
                    IsMember(groups, h, a) || (h == id && a in g.members && a !in left)
        decreases left
      {
        var a := AnyOf(left);
        Insert(a, id);
        left := left - {a};
      }
    }

    /** Whatever the records say, a success installs a group whose only Owner is the named owner and whose other
        members are the records' accounts; a refusal changes nothing. */
    method RestoreGroup(id: GroupId, name: string, owner: Account, records: seq<Record>) returns (ok: bool)
      requires Valid()
      modifies this
      ensures Valid()
      ensures ok <==> id != "" && name != "" && owner != "" && Restorable(owner, records)
      ensures !ok ==> groups == old(groups)
      ensures ok ==> id in groups && groups == old(groups)[id := groups[id]] && groups[id].owner == owner
                     && MembersFrom(groups[id].members, owner, records)
    {
      if id == "" || name == "" || owner == "" {
        return false;
      }
      var built := BuildMembers(owner, records);
      if built.None? {
        return false;
      }
      if id in groups {
        Unlist(id);
        groups := groups - {id};
      }
      ListMembers(id, built.value);
      groups := groups[id := built.value];
      ok := true;
    }

    method SetMemberRole(id: GroupId, a: Account, role: Role) returns (ok: bool)
      requires Valid()
      modifies this
      ensures Valid() && index == old(index)
      ensures ok <==> IsMember(old(groups), id, a) && a != old(groups)[id].owner && role != Owner
      ensures groups == if ok then old(groups)[id := old(groups)[id].(members := old(groups)[id].members[a := role])]
                        else old(groups)
    {
      ok := false;
      if IsMember(groups, id, a) {
        var (g, changed) := SetRole(groups[id], a, role);
        if changed {
          groups := groups[id := g];
          ok := true;
        }
      }
    }

    method Transfer(id: GroupId, from: Account, to: Account) returns (ok: bool)
      requires Valid()
      modifies this
      ensures Valid() && index == old(index)
      ensures ok <==> id in old(groups) && from == old(groups)[id].owner && to != from && to in old(groups)[id].members
      ensures ok ==> id in groups && groups == old(groups)[id := groups[id]] && groups[id].owner == to
                     && groups[id].members == old(groups)[id].members[from := Member][to := Owner]
      ensures !ok ==> groups == old(groups)
    {
      ok := false;
      if id in groups && groups[id].owner == from {
        var (g, changed) := TransferOwner(groups[id], from, to);
        if changed {
          groups := groups[id := g];
          ok := true;
        }
      }
    }

    method GroupsOfUser(a: Account) returns (ids: seq<GroupId>)
      requires Valid()
      ensures forall i, j :: 0 <= i < j < |ids| ==> ids[i] != ids[j]
      ensures forall id :: id in ids <==> IsMember(groups, id, a)
    {
      ids := [];
      if a in index {
        var left := index[a];
        while left != {}
          invariant left <= index[a]
          invariant forall id :: id in ids <==> id in index[a] && id !in left
          invariant forall i, j :: 0 <= i < j < |ids| ==> ids[i] != ids[j]
          decreases left
        {
          var id := AnyOf(left);
          ids, left := ids + [id], left - {id};
        }
        assert forall id :: id in ids <==> Lists(index, a, id);
      } else {
        assert forall id :: !Lists(index, a, id);
      }
    }

    method MemberAccounts(id: GroupId) returns (accounts: seq<Account>)
      ensures forall i, j :: 0 <= i < j < |accounts| ==> accounts[i] != accounts[j]
      ensures forall a :: a in accounts <==> IsMember(groups, id, a)
    {
      accounts := [];
      if id in groups {
        var left := groups[id].members.Keys;
        while left != {}
          invariant left <= groups[id].members.Keys
          invariant forall a :: a in accounts <==> a in groups[id].members.Keys && a !in left
          invariant forall i, j :: 0 <= i < j < |accounts| ==> accounts[i] != accounts[j]
          decreases left
        {
          var a := AnyOf(left);
          accounts, left := accounts + [a], left - {a};
        }
      }
    }

    /** A member may be managed by the owner, or by an admin who is not managing another admin or the owner. */
    function CanManage(id: GroupId, operator: Account, target: Account): (r: bool)
      reads this
      ensures r ==> IsMember(groups, id, operator) && IsMember(groups, id, target)
      ensures Valid() && r && operator != groups[id].owner ==>
                groups[id].members[target] == Member && target != groups[id].owner
      ensures IsMember(groups, id, target) && id in groups && operator == groups[id].owner && Valid() ==> r
      ensures (IsMember(groups, id, operator) && groups[id].members[operator] == Admin
               && IsMember(groups, id, target) && groups[id].members[target] == Member) ==> r
      ensures IsMember(groups, id, operator) && groups[id].members[operator] == Member ==> !r
    {
      IsMember(groups, id, operator) && IsMember(groups, id, target) &&
      (groups[id].members[operator] == Owner ||
       (groups[id].members[operator] == Admin && groups[id].members[target] == Member))
    }
  }
}
