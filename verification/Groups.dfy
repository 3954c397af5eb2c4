/** Copy groups, the wallets they follow, and keeping the monitored wallets in step with them. */
module Groups {
  import opened Common
  import opened TextOrder

  datatype CopyGroup = CopyGroup(id: string, name: string, enabled: bool, wallets: seq<Pubkey>, minWallets: nat)

  datatype GroupError = GroupNotFound(id: string) | LastGroup | WalletNotFound

  type Table = map<string, CopyGroup>

  predicate Keyed(t: Table)
  {
    forall id | id in t :: t[id].id == id
  }

  /** Groups inserted one after another under their identifiers. */
  function Loaded(saved: seq<CopyGroup>): Table
  {
    if saved == [] then map[] else
    var last := saved[|saved| - 1];
    Loaded(saved[..|saved| - 1])[last.id := last]
  }

  /** The group is the last one saved under its identifier. */
  ghost predicate LastSaved(saved: seq<CopyGroup>, g: CopyGroup)
  {
    exists i :: 0 <= i < |saved| && saved[i] == g && NoneLater(saved, g.id, i)
  }

  predicate NoneLater(saved: seq<CopyGroup>, id: string, i: int)
  {
    forall j | i < j < |saved| && 0 <= j :: saved[j].id != id
  }

  /** Every saved identifier is loaded, with the last group saved under it. */
  lemma {:induction false} LoadedIsLastSaved(saved: seq<CopyGroup>)
    ensures forall g | g in saved :: g.id in Loaded(saved)
    ensures forall id | id in Loaded(saved) :: Loaded(saved)[id].id == id && LastSaved(saved, Loaded(saved)[id])
  {
    if saved != [] {
      var front, last := saved[..|saved| - 1], saved[|saved| - 1];
      LoadedIsLastSaved(front);
      assert saved == front + [last];
      assert LastSaved(saved, last) by {
        assert NoneLater(saved, last.id, |saved| - 1);
      }
      forall id | id in Loaded(front) && id != last.id
        ensures LastSaved(saved, Loaded(front)[id])
      {
        var i :| 0 <= i < |front| && front[i] == Loaded(front)[id] && NoneLater(front, id, i);
        assert NoneLater(saved, id, i);
      }
    }
  }

  function Ids(groups: seq<CopyGroup>): (ids: seq<string>)
    ensures |ids| == |groups| && forall i | 0 <= i < |ids| :: ids[i] == groups[i].id
  {
    seq(|groups|, i requires 0 <= i < |groups| => groups[i].id)
  }

  /** The groups of a table that satisfy a condition, in order of their identifiers. */
  ghost predicate Lists(groups: seq<CopyGroup>, t: Table, wanted: CopyGroup -> bool)
  {
    && StrictlySorted(Ids(groups))
    && (forall g | g in groups :: g.id in t && t[g.id] == g && wanted(g))
    && (forall id | id in t && wanted(t[id]) :: t[id] in groups)
  }

  function InOrder(t: Table, ids: seq<string>): (groups: seq<CopyGroup>)
    requires Keyed(t) && StrictlySorted(ids) && Elements(ids) == t.Keys
    ensures Lists(groups, t, g => true)
  {
    assert forall i | 0 <= i < |ids| :: ids[i] in Elements(ids);
    var groups := seq(|ids|, i requires 0 <= i < |ids| => t[ids[i]]);
    assert Ids(groups) == ids;
    assert forall id | id in Elements(ids) :: exists k :: 0 <= k < |ids| && ids[k] == id && groups[k] == t[id];
    groups
  }

  /** Every wallet of every group, enabled or not. */
  function WalletsOf(t: Table): set<Pubkey>
  {
    set id, w | id in t && w in t[id].wallets :: w
  }

  predicate Follows(g: CopyGroup, wallet: Pubkey)
  {
    g.enabled && wallet in g.wallets
  }

  // ---- Edits of the table ----

  function WithWallet(t: Table, id: string, wallet: Pubkey): Table
  {
    if id !in t || wallet in t[id].wallets then t else t[id := t[id].(wallets := t[id].wallets + [wallet])]
  }

  /** The list without its first occurrence of a wallet. */
  function RemoveFirst(s: seq<Pubkey>, wallet: Pubkey): seq<Pubkey>
  {
    if s == [] then [] else if s[0] == wallet then s[1..] else [s[0]] + RemoveFirst(s[1..], wallet)
  }

  function WithoutWallet(t: Table, id: string, wallet: Pubkey): Table
  {
    if id !in t then t else t[id := t[id].(wallets := RemoveFirst(t[id].wallets, wallet))]
  }

  function WithEnabled(t: Table, id: string, enabled: bool): Table
  {
    if id !in t then t else t[id := t[id].(enabled := enabled)]
  }

  /** The last group is never deleted. */
  function WithoutGroup(t: Table, id: string): Table
  {
    if |t| <= 1 then t else t - {id}
  }

  lemma {:induction false} RemoveFirstAt(s: seq<Pubkey>, wallet: Pubkey, k: nat)
    requires k <= |s| && wallet !in s[..k] && (k < |s| ==> s[k] == wallet)
    ensures RemoveFirst(s, wallet) == if k < |s| then s[..k] + s[k + 1..] else s
  {
    if s != [] && k > 0 {
      assert s[0] in s[..k];
      assert s[1..][..k - 1] == s[..k][1..];
      RemoveFirstAt(s[1..], wallet, k - 1);
      assert s == [s[0]] + s[1..];
    }
  }

  ghost predicate NoRepeats(s: seq<string>)
  {
    forall i, j | 0 <= i < j < |s| :: s[i] != s[j]
  }

  // ---- Group identifiers ----

  function GroupIndex(id: string): Option<u64>
  {
    if id != "" && id[0] == 'g' then ParseU64(id[1..]) else None
  }

  ghost predicate IsMaxIndex(t: Table, max: u64)
  {
    && (forall id | id in t && GroupIndex(id).Some? :: GroupIndex(id).value <= max)
    && (max == 0 || exists id :: id in t && GroupIndex(id) == Some(max))
  }

  /** One more than the largest index, which wraps around in a release build. */
  function NextId(max: u64): string
  {
    "g" + Decimal((max + 1) % TWO_64)
  }

  /** The identifier of a new group is unused, except after the very last index when `g0` exists. */
  lemma NextIdIsTakenIff(t: Table, max: u64)
    requires IsMaxIndex(t, max)
    ensures NextId(max) in t <==> max == TWO_64 - 1 && "g0" in t
  {
    var next := (max + 1) % TWO_64;
    ParseOfDecimal(next);
    assert NextId(max)[1..] == Decimal(next);
    assert GroupIndex(NextId(max)) == Some(next);
    assert max == TWO_64 - 1 ==> NextId(max) == "g0";
  }

  // ---- The group manager ----

  class GroupManager {
    var groups: Table
    var selectedGroupId: Option<string>

    /** There is always a group, and the selected one exists. */
    ghost predicate Valid()
      reads this
    {
      Keyed(groups) && selectedGroupId.Some? && selectedGroupId.value in groups
    }

    /** Loads saved groups, the last of each identifier, or the default one; selects the first if the saved choice is gone. */
    constructor (saved: seq<CopyGroup>, selected: Option<string>, base: CopyGroup)
      ensures Valid()
      ensures groups == Loaded(if saved == [] then [base] else saved)
      ensures selected.Some? && selected.value in groups ==> selectedGroupId == selected
      ensures selected.None? || selected.value !in groups ==>
        forall id | id in groups :: id == selectedGroupId.value || Less(selectedGroupId.value, id)
    {
      groups, selectedGroupId := map[], selected;
      new;
      var loaded := if saved == [] then [base] else saved;
      for i := 0 to |loaded|
        invariant Keyed(groups) && selectedGroupId == selected
        invariant groups == Loaded(loaded[..i]) && (i > 0 ==> groups != map[])
      {
        assert loaded[..i + 1][..i] == loaded[..i];
        groups := groups[loaded[i].id := loaded[i]];
        assert loaded[i].id in groups;
      }
      assert loaded[..|loaded|] == loaded;
      if selectedGroupId.None? || selectedGroupId.value !in groups {
        SelectFirst();
      }
    }

    method SelectFirst()
      requires Keyed(groups) && groups != map[]
      modifies this`selectedGroupId
      ensures Valid()
      ensures forall id | id in groups :: id == selectedGroupId.value || Less(selectedGroupId.value, id)
    {
      var all := AllGroups();
      var some :| some in groups;
      assert groups[some] in all;
      selectedGroupId := Some(all[0].id);
      forall id | id in groups ensures id == all[0].id || Less(all[0].id, id) {
        var k :| 0 <= k < |all| && all[k] == groups[id];
        assert Ids(all)[k] == id && Ids(all)[0] == all[0].id;
      }
    }

    method AllIds() returns (ids: seq<string>)
      ensures NoRepeats(ids) && Elements(ids) == groups.Keys
    {
      ids := [];
      var rest := groups.Keys;
      while rest != {}
        invariant rest <= groups.Keys && NoRepeats(ids)
        invariant Elements(ids) == groups.Keys - rest
        decreases |rest|
      {
        var id :| id in rest;
        assert id !in Elements(ids);
        assert Elements(ids + [id]) == Elements(ids) + {id};
        ids := ids + [id];
        rest := rest - {id};
      }
    }

    method AllGroups() returns (all: seq<CopyGroup>)
      requires Keyed(groups)
      ensures Lists(all, groups, g => true)
    {
      var unsorted := AllIds();
      SortOfDistinct(unsorted);
      var ids := Sort(unsorted);
      all := InOrder(groups, ids);
    }

    method AllTargetWallets() returns (wallets: seq<Pubkey>)
      requires Valid()
      ensures NoRepeats(wallets) && Elements(wallets) == WalletsOf(groups)
    {
      wallets := [];
      var all := AllGroups();
      for i := 0 to |all|
        invariant NoRepeats(wallets)
        invariant forall w :: w in wallets <==> exists k :: 0 <= k < i && w in all[k].wallets
      {
        ghost var before := wallets;
        var listed := all[i].wallets;
        for j := 0 to |listed|
          invariant NoRepeats(wallets)
          invariant forall w :: w in wallets <==> w in before || w in listed[..j]
        {
          if listed[j] !in wallets {
            wallets := wallets + [listed[j]];
          }
        }
        assert listed[..|listed|] == listed;
      }
      forall w ensures w in wallets <==> w in WalletsOf(groups) {
        if w in WalletsOf(groups) {
          var id :| id in groups && w in groups[id].wallets;
          var k :| 0 <= k < |all| && all[k] == groups[id];
        }
      }
    }

    method GroupsForWallet(wallet: Pubkey) returns (found: seq<CopyGroup>)
      requires Valid()
      ensures Lists(found, groups, g => Follows(g, wallet))
    {
      hide Less;
      var all := AllGroups();
      found := [];
      for i := 0 to |all|
        invariant StrictlySorted(Ids(found))
        invariant forall g | g in found :: Follows(g, wallet) && g in all[..i]
        invariant forall k | 0 <= k < i && Follows(all[k], wallet) :: all[k] in found
      {
        if all[i].enabled && wallet in all[i].wallets {
          AppendKeepsSorted(all, found, i);
          found := found + [all[i]];
        }
        assert all[..i + 1] == all[..i] + [all[i]];
      }
    }

    method SetSelectedGroup(id: string) returns (result: Result<(), GroupError>)
      requires Valid()
      modifies this
      ensures Valid() && groups == old(groups)
      ensures result == if id in groups then Ok(()) else Err(GroupNotFound(id))
      ensures selectedGroupId == if id in groups then Some(id) else old(selectedGroupId)
    {
      if id !in groups {
        return Err(GroupNotFound(id));
      }
      selectedGroupId := Some(id);
      result := Ok(());
    }

    method NextGroupId() returns (max: u64, id: string)
      ensures IsMaxIndex(groups, max) && id == NextId(max)
    {
      max := 0;
      var rest := groups.Keys;
      while rest != {}
        invariant rest <= groups.Keys
        invariant forall k | k in groups && k !in rest && GroupIndex(k).Some? :: GroupIndex(k).value <= max
        invariant max == 0 || exists k :: k in groups && GroupIndex(k) == Some(max)
        decreases |rest|
      {
        var k :| k in rest;
        var index := GroupIndex(k);
        if index.Some? && index.value > max {
          max := index.value;
        }
        rest := rest - {k};
      }
      id := NextId(max);
    }

    /** A new group follows nobody, needs one wallet, and becomes the selected one. */
    method AddGroup(name: string, base: CopyGroup) returns (group: CopyGroup)
      requires Valid()
      modifies this
      ensures Valid()
      ensures exists max :: IsMaxIndex(old(groups), max) && group.id == NextId(max)
      ensures group == base.(id := group.id, name := name, wallets := [], minWallets := 1)
      ensures groups == old(groups)[group.id := group] && selectedGroupId == Some(group.id)
    {
      var max, nextId := NextGroupId();
      group := base.(id := nextId, name := name, wallets := [], minWallets := 1);
      groups := groups[nextId := group];
      selectedGroupId := Some(nextId);
    }

    method DeleteGroup(id: string) returns (result: Result<(), GroupError>)
      requires Valid()
      modifies this
      ensures Valid()
      ensures result.Ok? <==> |old(groups)| > 1 && id in old(groups)
      ensures result.Err? ==> result.error == (if |old(groups)| <= 1 then LastGroup else GroupNotFound(id))
      ensures groups == WithoutGroup(old(groups), id)
      ensures result.Err? || old(selectedGroupId) != Some(id) ==> selectedGroupId == old(selectedGroupId)
      ensures result.Ok? && old(selectedGroupId) == Some(id) ==>
        forall other | other in groups :: other == selectedGroupId.value || Less(selectedGroupId.value, other)
    {
      if |groups| <= 1 {
        return Err(LastGroup);
      }
      if id !in groups {
        return Err(GroupNotFound(id));
      }
      assert |groups.Keys - {id}| == |groups.Keys| - 1;
      groups := groups - {id};
      assert groups.Keys == old(groups).Keys - {id};
      if selectedGroupId == Some(id) {
        SelectFirst();
      }
      result := Ok(());
    }

    method SetGroupEnabled(id: string, enabled: bool) returns (result: Result<(), GroupError>)
      requires Valid()
      modifies this`groups
      ensures Valid()
      ensures result == if id in old(groups) then Ok(()) else Err(GroupNotFound(id))
      ensures groups == WithEnabled(old(groups), id, enabled)
    {
      if id !in groups {
        return Err(GroupNotFound(id));
      }
      groups := groups[id := groups[id].(enabled := enabled)];
      result := Ok(());
    }

    method AddWallet(id: string, wallet: Pubkey) returns (result: Result<(), GroupError>)
      requires Valid()
      modifies this`groups
      ensures Valid()
      ensures result == if id in old(groups) then Ok(()) else Err(GroupNotFound(id))
      ensures groups == WithWallet(old(groups), id, wallet)
      ensures result.Ok? ==> WalletsOf(groups) == WalletsOf(old(groups)) + {wallet}
      ensures result.Ok? ==> old(groups)[id].wallets <= groups[id].wallets
    {
      if id !in groups {
        return Err(GroupNotFound(id));
      }
      if wallet !in groups[id].wallets {
        groups := groups[id := groups[id].(wallets := groups[id].wallets + [wallet])];
      }
      forall w ensures w in WalletsOf(groups) <==> w in WalletsOf(old(groups)) + {wallet} {
        if w in WalletsOf(old(groups)) {
          var k :| k in old(groups) && w in old(groups)[k].wallets;
          assert w in groups[k].wallets;
        } else if w == wallet {
          assert w in groups[id].wallets;
        }
      }
      result := Ok(());
    }

    /** Removes the first occurrence of a wallet. */
    method RemoveWallet(id: string, wallet: Pubkey) returns (result: Result<(), GroupError>)
      requires Valid()
      modifies this`groups
      ensures Valid()
      ensures result == if id !in old(groups) then Err(GroupNotFound(id))
        else if wallet !in old(groups)[id].wallets then Err(WalletNotFound) else Ok(())
      ensures groups == WithoutWallet(old(groups), id, wallet)
    {
      if id !in groups {
        return Err(GroupNotFound(id));
      }
      var wallets := groups[id].wallets;
      var k := 0;
      while k < |wallets| && wallets[k] != wallet
        invariant k <= |wallets| && wallet !in wallets[..k]
      {
        k := k + 1;
      }
      RemoveFirstAt(wallets, wallet, k);
      if k == |wallets| {
        assert wallets[..k] == wallets;
        assert groups[id := groups[id].(wallets := wallets)] == groups;
        return Err(WalletNotFound);
      }
      groups := groups[id := groups[id].(wallets := wallets[..k] + wallets[k + 1..])];
      result := Ok(());
    }
  }

  lemma SortOfDistinct(s: seq<string>)
    requires NoRepeats(s)
    ensures StrictlySorted(Sort(s)) && Elements(Sort(s)) == Elements(s)
  {
    var sorted := Sort(s);
    SortSorts(s);
    assert forall x :: x in sorted <==> x in multiset(sorted);
    assert forall x :: x in s <==> x in multiset(s);
    forall i, j | 0 <= i < j < |sorted| ensures Less(sorted[i], sorted[j]) {
      LessIsTotal(sorted[i], sorted[j]);
      if sorted[i] == sorted[j] {
        RepeatIsCounted(sorted, i, j);
        CountOfDistinct(s, sorted[i]);
      }
    }
  }

  lemma RepeatIsCounted(s: seq<string>, i: nat, j: nat)
    requires i < j < |s| && s[i] == s[j]
    ensures multiset(s)[s[i]] >= 2
  {
    assert s == s[..j] + s[j..];
    assert s[..j][i] == s[i] && s[j..][0] == s[j];
  }

  lemma {:induction false} CountOfDistinct(s: seq<string>, x: string)
    requires NoRepeats(s)
    ensures multiset(s)[x] <= 1
  {
    if s != [] {
      CountOfDistinct(s[1..], x);
      assert s == [s[0]] + s[1..];
    }
  }

  lemma AppendKeepsSorted(all: seq<CopyGroup>, found: seq<CopyGroup>, i: nat)
    requires i < |all| && StrictlySorted(Ids(all)) && StrictlySorted(Ids(found))
    requires forall g | g in found :: g in all[..i]
    ensures StrictlySorted(Ids(found + [all[i]]))
  {
    forall k | 0 <= k < |found| ensures Less(found[k].id, all[i].id) {
      assert found[k] in all[..i];
      var m :| 0 <= m < i && all[m] == found[k];
      assert Ids(all)[m] == found[k].id && Ids(all)[i] == all[i].id;
    }
    var ids := Ids(found + [all[i]]);
    assert ids == Ids(found) + [all[i].id];
  }

  // ---- The monitored wallets ----

  class GrpcSubscriber {
    var targetWallets: seq<Pubkey>
    var notified: nat

    ghost predicate Valid()
      reads this
    {
      StrictlySorted(targetWallets)
    }

    constructor (wallets: seq<Pubkey>)
      ensures Valid() && Elements(targetWallets) == Elements(wallets) && notified == 0
    {
      targetWallets, notified := Normalize(wallets), 0;
      NormalizeIsCanonical(wallets);
    }

    /** Reports a change, and wakes the stream, exactly when the set of wallets is a different one. */
    method UpdateTargetWallets(wallets: seq<Pubkey>) returns (changed: bool)
      requires Valid()
      modifies this
      ensures Valid() && targetWallets == Normalize(wallets) && Elements(targetWallets) == Elements(wallets)
      ensures changed <==> Elements(wallets) != Elements(old(targetWallets))
      ensures notified == old(notified) + if changed then 1 else 0
    {
      var normalized := Normalize(wallets);
      NormalizeIsCanonical(wallets);
      NormalizeOfNormal(targetWallets);
      NormalizeAlikeIff(wallets, targetWallets);
      if targetWallets == normalized {
        return false;
      }
      targetWallets := normalized;
      notified := notified + 1;
      changed := true;
    }
  }

  /** One pass of the hot reload: afterwards the list is the one sorted list of all groups' wallets. */
  method SyncTick(manager: GroupManager, subscriber: GrpcSubscriber) returns (changed: bool)
    requires manager.Valid() && subscriber.Valid()
    modifies subscriber
    ensures subscriber.Valid() && manager.Valid()
    ensures Elements(subscriber.targetWallets) == WalletsOf(manager.groups)
    ensures changed <==> WalletsOf(manager.groups) != Elements(old(subscriber.targetWallets))
    ensures forall list | StrictlySorted(list) && Elements(list) == WalletsOf(manager.groups) :: subscriber.targetWallets == list
  {
    var wallets := manager.AllTargetWallets();
    changed := subscriber.UpdateTargetWallets(wallets);
    forall list | StrictlySorted(list) && Elements(list) == WalletsOf(manager.groups)
      ensures subscriber.targetWallets == list
    {
      StrictlySortedIsUnique(subscriber.targetWallets, list);
    }
  }
}
