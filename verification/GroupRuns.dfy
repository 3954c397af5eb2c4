/** Runs of group edits and syncs: what is monitored, and what an edit can change about it. */
module GroupRuns {
  import opened Common
  import opened Groups

  datatype Event =
    | AddTo(id: string, wallet: Pubkey)
    | RemoveFrom(id: string, wallet: Pubkey)
    | Toggle(id: string, enabled: bool)
    | Put(group: CopyGroup)
    | Delete(id: string)
    | Sync

  /** The groups, the wallets monitored since the last sync, and how often a change was announced. */
  datatype State = State(table: Table, monitored: set<Pubkey>, announced: nat)

  function Step(s: State, e: Event): State
  {
    match e
    case AddTo(id, wallet) => s.(table := WithWallet(s.table, id, wallet))
    case RemoveFrom(id, wallet) => s.(table := WithoutWallet(s.table, id, wallet))
    case Toggle(id, enabled) => s.(table := WithEnabled(s.table, id, enabled))
    case Put(group) => s.(table := s.table[group.id := group])
    case Delete(id) => s.(table := WithoutGroup(s.table, id))
    case Sync => State(s.table, WalletsOf(s.table), s.announced + if WalletsOf(s.table) != s.monitored then 1 else 0)
  }

  function Run(s: State, events: seq<Event>): State
    decreases |events|
  {
    if events == [] then s else Run(Step(s, events[0]), events[1..])
  }

  // ---- Enabling and disabling a group cannot be seen in what is monitored ----

  function WithoutToggles(events: seq<Event>): seq<Event>
  {
    if events == [] then []
    else (if events[0].Toggle? then [] else [events[0]]) + WithoutToggles(events[1..])
  }

  /** The same groups but for which of them are enabled. */
  predicate SameButEnabled(t: Table, u: Table)
  {
    t.Keys == u.Keys && forall id | id in t :: u[id] == t[id].(enabled := u[id].enabled)
  }

  lemma SameWallets(t: Table, u: Table)
    requires SameButEnabled(t, u)
    ensures WalletsOf(t) == WalletsOf(u)
  {
    forall w ensures w in WalletsOf(t) <==> w in WalletsOf(u) {
      if w in WalletsOf(t) {
        var id :| id in t && w in t[id].wallets;
        assert w in u[id].wallets;
      }
      if w in WalletsOf(u) {
        var id :| id in u && w in u[id].wallets;
        assert w in t[id].wallets;
      }
    }
  }

  lemma StepKeepsSame(s: State, r: State, e: Event)
    requires SameButEnabled(s.table, r.table) && s.monitored == r.monitored && s.announced == r.announced
    ensures var s', r' := Step(s, e), if e.Toggle? then r else Step(r, e);
      SameButEnabled(s'.table, r'.table) && s'.monitored == r'.monitored && s'.announced == r'.announced
  {
    match e
    case Sync => SameWallets(s.table, r.table);
    case Delete(_) => assert |s.table| == |s.table.Keys| == |r.table.Keys| == |r.table|;
    case AddTo(_, _) =>
    case RemoveFrom(_, _) =>
    case Toggle(_, _) =>
    case Put(_) =>
  }

  lemma {:induction false} TogglesAreInvisibleFrom(s: State, r: State, events: seq<Event>)
    requires SameButEnabled(s.table, r.table) && s.monitored == r.monitored && s.announced == r.announced
    ensures var s', r' := Run(s, events), Run(r, WithoutToggles(events));
      s'.monitored == r'.monitored && s'.announced == r'.announced
    decreases |events|
  {
    if events != [] {
      StepKeepsSame(s, r, events[0]);
      if events[0].Toggle? {
        TogglesAreInvisibleFrom(Step(s, events[0]), r, events[1..]);
        assert WithoutToggles(events) == WithoutToggles(events[1..]);
      } else {
        TogglesAreInvisibleFrom(Step(s, events[0]), Step(r, events[0]), events[1..]);
        assert WithoutToggles(events)[1..] == WithoutToggles(events[1..]);
      }
    }
  }

  /** In every run of edits and syncs, leaving out all enabling and disabling changes neither the monitored wallets nor the announcements. */
  lemma TogglesAreInvisible(s: State, events: seq<Event>)
    ensures Run(s, events).monitored == Run(s, WithoutToggles(events)).monitored
    ensures Run(s, events).announced == Run(s, WithoutToggles(events)).announced
  {
    TogglesAreInvisibleFrom(s, s, events);
  }

  /** So a wallet that only a disabled group lists stays monitored for nobody. */
  lemma DisabledWalletStaysMonitored(s: State, id: string, wallet: Pubkey)
    requires id in s.table && wallet in s.table[id].wallets
    requires forall other | other in s.table && other != id :: !Follows(s.table[other], wallet)
    ensures var t := Step(Step(s, Toggle(id, false)), Sync);
      wallet in t.monitored && forall other | other in t.table :: !Follows(t.table[other], wallet)
  {
    var t := Step(s, Toggle(id, false)).table;
    assert id in t && wallet in t[id].wallets;
  }

  // ---- Removing a wallet ----

  lemma {:induction false} RemainsIff(s: seq<Pubkey>, wallet: Pubkey, w: Pubkey)
    ensures w in RemoveFirst(s, wallet) <==> multiset(s)[w] > if w == wallet then 1 else 0
  {
    if s != [] {
      assert s == [s[0]] + s[1..];
      if s[0] != wallet {
        RemainsIff(s[1..], wallet, w);
      } else {
        assert w in s[1..] <==> w in multiset(s[1..]);
      }
    }
  }

  /** After removing a wallet from a group it is still monitored exactly if another group lists it, or the group lists it twice. */
  lemma StillMonitoredIff(s: State, id: string, wallet: Pubkey)
    requires id in s.table
    ensures wallet in Step(Step(s, RemoveFrom(id, wallet)), Sync).monitored <==>
      || multiset(s.table[id].wallets)[wallet] > 1
      || exists other :: other in s.table && other != id && wallet in s.table[other].wallets
  {
    RemainsIff(s.table[id].wallets, wallet, wallet);
    var t := WithoutWallet(s.table, id, wallet);
    assert forall other | other in t && other != id :: t[other] == s.table[other];
    if wallet in WalletsOf(t) {
      var k :| k in t && wallet in t[k].wallets;
      assert k == id || (k in s.table && wallet in s.table[k].wallets);
    } else {
      assert wallet !in t[id].wallets;
      assert forall other | other in t :: wallet !in t[other].wallets;
    }
  }
}
