/** ImService::collectGroupTargets: the connections a group message is pushed to. */
module GroupTargets {

  import BatchSends
  import Connections
  import ConnectionSteps
  import Groups
  import Sessions

  predicate Targeted(groups: Groups.GroupMap, t: Sessions.Table, id: Groups.GroupId, excluded: Sessions.Key,
                     key: Sessions.Key)
  {
    key != excluded && key in t.connAccount && Groups.IsMember(groups, id, t.connAccount[key])
  }

  /** No key twice, and exactly the keys bound to a current member, without the excluded one. */
  method CollectGroupTargets(groups: Groups.GroupManager, sessions: Sessions.SessionManager, id: Groups.GroupId,
                             excluded: Sessions.Key) returns (targets: seq<Sessions.Key>)
    requires Sessions.Consistent(sessions.View())
    ensures forall i, j :: 0 <= i < j < |targets| ==> targets[i] != targets[j]
    ensures forall key :: key in targets <==> Targeted(groups.groups, sessions.View(), id, excluded, key)
  {
    var t := sessions.View();
    var members := groups.MemberAccounts(id);
    var seen: set<Sessions.Key> := {};
    targets := [];
    for i := 0 to |members|
      invariant CollectedOnce(targets, seen)
      invariant forall key :: key in seen <==> key != excluded && BoundToOneOf(t, key, members[..i])
    {
      var keys := sessions.ConnKeysByAccountId(members[i]);
      for j := 0 to |keys|
        invariant CollectedOnce(targets, seen)
        invariant forall key :: key in seen <==>
                    key != excluded && (BoundToOneOf(t, key, members[..i]) || key in keys[..j])
      {
        if keys[j] != excluded && keys[j] !in seen {
          seen, targets := seen + {keys[j]}, targets + [keys[j]];
        }
        assert keys[..j + 1] == keys[..j] + [keys[j]];
      }
      assert keys[..|keys|] == keys;
      forall key ensures BoundToOneOf(t, key, members[..i + 1]) <==>
                         BoundToOneOf(t, key, members[..i]) || key in keys
      {
        assert members[..i + 1] == members[..i] + [members[i]];
        assert key in keys <==> Sessions.IsBound(t, key, members[i]);
      }
    }
    assert members[..|members|] == members;
  }

  predicate BoundToOneOf(t: Sessions.Table, key: Sessions.Key, accounts: seq<string>) {
    key in t.connAccount && t.connAccount[key] in accounts
  }

  ghost predicate CollectedOnce(targets: seq<Sessions.Key>, seen: set<Sessions.Key>) {
    && (forall key :: key in targets <==> key in seen)
    && (forall i, j :: 0 <= i < j < |targets| ==> targets[i] != targets[j])
  }

  lemma {:induction false} NoneMissing(keys: seq<Sessions.Key>, peers: map<Sessions.Key, BatchSends.Peer>)
    requires forall i :: 0 <= i < |keys| ==> keys[i] in peers
    ensures BatchSends.CountMissing(keys, peers) == 0
    decreases |keys|
  {
    if keys != [] {
      NoneMissing(keys[..|keys| - 1], peers);
    }
  }

  /** In every reachable state of the server, what is collected for a group message are keys of registered connections,
      so sending the batch to them counts no missing connection. */
  lemma TargetsAreRegistered(s: ConnectionSteps.State, groups: Groups.GroupMap, id: Groups.GroupId,
                             excluded: Sessions.Key, targets: seq<Sessions.Key>,
                             peers: map<Sessions.Key, BatchSends.Peer>)
    requires Connections.Reachable(s) && peers.Keys == s.net.registered.Keys
    requires forall key :: key in targets <==> Targeted(groups, s.table, id, excluded, key)
    ensures BatchSends.CountMissing(targets, peers) == 0
  {
    Connections.SessionsAreRegistered(s);
    forall i | 0 <= i < |targets| ensures targets[i] in peers {
      assert Targeted(groups, s.table, id, excluded, targets[i]);
      assert targets[i] in s.net.registered;
    }
    NoneMissing(targets, peers);
  }
}
