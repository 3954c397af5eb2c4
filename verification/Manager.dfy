/** The shared position map and the atomic accesses that the bot's tasks make to it. */
module Manager {
  import opened Common
  import opened Positions

  datatype PositionKey = PositionKey(groupId: string, tokenMint: Pubkey)

  type Table = map<PositionKey, PositionData>

  /** One access to one entry; a missing key is left missing. */
  function Update(t: Table, key: PositionKey, op: Operation): Table
  {
    if key in t then t[key := Apply(t[key], op)] else t
  }

  predicate Reapable(p: PositionData, now: nat)
  {
    Terminal(p.state) && Elapsed(now, p.createdAt) >= 60
  }

  predicate IsOpen(t: Table, k: PositionKey, mint: Pubkey)
  {
    k in t && k.tokenMint == mint && !Terminal(t[k].state)
  }

  ghost function OpenAmong(t: Table, mint: Pubkey, keys: set<PositionKey>): set<PositionKey>
  {
    set k | k in keys && IsOpen(t, k, mint)
  }

  ghost function OpenKeys(t: Table, mint: Pubkey): set<PositionKey>
  {
    OpenAmong(t, mint, t.Keys)
  }

  lemma OneMoreKey(t: Table, mint: Pubkey, keys: set<PositionKey>, k: PositionKey)
    requires k !in keys
    ensures |OpenAmong(t, mint, keys + {k})| == |OpenAmong(t, mint, keys)| + if IsOpen(t, k, mint) then 1 else 0
  {
    var before, after := OpenAmong(t, mint, keys), OpenAmong(t, mint, keys + {k});
    assert after == if IsOpen(t, k, mint) then before + {k} else before;
  }

  /**
   * Tokens booked by the fallback confirmation: the whole balance increase if no other open position
   * holds the mint, otherwise this position's own estimate when it has one.
   */
  function AssignedAmount(estimate: nat, openCount: nat, delta: nat): nat
  {
    if (openCount <= 1 && delta > 0) || estimate == 0 then delta else estimate
  }

  class AutoSellManager {
    var positions: map<PositionKey, Position>

    /** No two entries share a position object. */
    ghost predicate Valid()
      reads this
    {
      forall j, k | j in positions && k in positions && positions[j] == positions[k] :: j == k
    }

    ghost function Contents(): Table
      reads this, positions.Values
    {
      map k | k in positions :: positions[k].View()
    }

    constructor ()
      ensures Valid() && Contents() == map[]
    {
      positions := map[];
    }

    /** Inserts the position, replacing whatever the key held before. */
    method AddPosition(key: PositionKey, position: Position)
      requires Valid() && position !in positions.Values
      modifies this
      ensures Valid() && Contents() == old(Contents())[key := position.View()]
    {
      positions := positions[key := position];
    }

    method GetPosition(key: PositionKey) returns (p: Option<PositionData>)
      requires Valid()
      ensures p == if key in Contents() then Some(Contents()[key]) else None
    {
      if key in positions {
        p := Some(positions[key].View());
      } else {
        p := None;
      }
    }

    method ConfirmSuccess(key: PositionKey, amount: nat, curvePrice: Option<real>, now: nat)
      requires Valid()
      modifies positions.Values
      ensures Valid() && Contents() == Update(old(Contents()), key, Activate(amount, curvePrice, now))
    {
      if key in positions {
        var _ := positions[key].MarkActive(amount, curvePrice, now);
      }
    }

    method UpdateEntryPrice(key: PositionKey, price: real)
      requires Valid()
      modifies positions.Values
      ensures Valid() && Contents() == Update(old(Contents()), key, CorrectEntry(price))
    {
      if key in positions {
        positions[key].UpdateEntryPrice(price);
      }
    }

    method MarkSelling(key: PositionKey) returns (ok: bool)
      requires Valid()
      modifies positions.Values
      ensures Valid() && Contents() == Update(old(Contents()), key, StartSelling)
      ensures ok == (key in old(Contents()) && Accepted(old(Contents())[key], StartSelling))
    {
      if key in positions {
        ok := positions[key].MarkSelling();
      } else {
        ok := false;
      }
    }

    method MarkClosed(key: PositionKey, signature: string)
      requires Valid()
      modifies positions.Values
      ensures Valid() && Contents() == Update(old(Contents()), key, Close(signature))
    {
      if key in positions {
        var _ := positions[key].MarkClosed(signature);
      }
    }

    method RestoreAfterSellAttempt(key: PositionKey, previous: PositionState)
      requires Valid()
      modifies positions.Values
      ensures Valid() && Contents() == Update(old(Contents()), key, Restore(previous))
    {
      if key in positions {
        positions[key].RestoreAfterSellAttempt(previous);
      }
    }

    method SuspendAutoSell(key: PositionKey, previous: PositionState, maxAttempts: nat)
      requires Valid()
      modifies positions.Values
      ensures Valid() && Contents() == Update(old(Contents()), key, Suspend(previous, maxAttempts))
    {
      if key in positions {
        positions[key].SuspendAutoSell(previous, maxAttempts);
      }
    }

    method ApplyPartialSell(key: PositionKey, sold: nat, now: nat)
      requires Valid()
      modifies positions.Values
      ensures Valid() && Contents() == Update(old(Contents()), key, SellPart(sold, now))
    {
      if key in positions {
        var _ := positions[key].ApplyPartialSell(sold, now);
      }
    }

    method ConfirmFailed(key: PositionKey)
      requires Valid()
      modifies positions.Values
      ensures Valid() && Contents() == Update(old(Contents()), key, Fail)
    {
      if key in positions {
        var _ := positions[key].MarkFailed();
      }
    }

    method RecordZeroBalanceSellSkip(key: PositionKey) returns (skips: Option<nat>)
      requires Valid()
      modifies positions.Values
      ensures Valid() && Contents() == Update(old(Contents()), key, SkipZeroBalance)
      ensures skips == if key in Contents() then Some(Contents()[key].zeroSkips) else None
    {
      if key in positions {
        var n := positions[key].RecordZeroBalanceSellSkip();
        skips := Some(n);
      } else {
        skips := None;
      }
    }

    /** Counts the open positions of a mint, over all groups. */
    method OpenPositionCountForMint(mint: Pubkey) returns (count: nat)
      requires Valid()
      ensures count == |OpenKeys(Contents(), mint)|
    {
      count := 0;
      var rest := positions.Keys;
      ghost var seen: set<PositionKey> := {};
      while rest != {}
        invariant rest <= positions.Keys && seen == positions.Keys - rest
        invariant count == |OpenAmong(Contents(), mint, seen)|
        decreases |rest|
      {
        var k :| k in rest;
        OneMoreKey(Contents(), mint, seen, k);
        var p := positions[k].View();
        if k.tokenMint == mint && p.state != Closed && p.state != Failed {
          count := count + 1;
        }
        rest, seen := rest - {k}, seen + {k};
      }
      assert seen == Contents().Keys;
    }

    /**
     * What late confirmation by balance sets out to do, for a position whose own confirmer did not settle it in time.
     * Where the balance grew the bot does not get that far (FallbackLock).
     */
    method ConfirmFallback(key: PositionKey, balance: nat, curvePrice: Option<real>, now: nat)
      requires Valid()
      modifies positions.Values
      ensures Valid() && key !in old(Contents()) ==> Contents() == old(Contents())
      ensures key in old(Contents()) ==>
        var p := old(Contents())[key];
        Contents() == Update(old(Contents()), key,
          if balance > p.preBuyBalance
          then Activate(AssignedAmount(p.tokenAmount, |OpenKeys(old(Contents()), key.tokenMint)|, balance - p.preBuyBalance), curvePrice, now)
          else Fail)
    {
      if key in positions {
        var before := positions[key].preBuyBalance;
        if balance > before {
          var share := ShareOfBalance(key, balance - before);
          ConfirmSuccess(key, share, curvePrice, now);
        } else {
          ConfirmFailed(key);
        }
      }
    }

    method ShareOfBalance(key: PositionKey, delta: nat) returns (share: nat)
      requires Valid() && key in positions
      ensures share == AssignedAmount(Contents()[key].tokenAmount, |OpenKeys(Contents(), key.tokenMint)|, delta)
    {
      var count := OpenPositionCountForMint(key.tokenMint);
      var estimate := positions[key].tokenAmount;
      if delta > 0 && count <= 1 {
        share := delta;
      } else if estimate > 0 {
        share := estimate;
      } else {
        share := delta;
      }
    }

    /** Drops the positions that have been over for long enough, and only those. */
    method Reap(now: nat)
      requires Valid()
      modifies this
      ensures Valid()
      ensures Contents() == map k | k in old(Contents()) && !Reapable(old(Contents())[k], now) :: old(Contents())[k]
      ensures forall k | k in old(Contents()) ::
        k !in Contents() <==> old(Contents())[k].state in {Closed, Failed} && Elapsed(now, old(Contents())[k].createdAt) >= 60
    {
      positions := map k | k in positions && !Reapable(positions[k].View(), now) :: positions[k];
    }
  }
}
