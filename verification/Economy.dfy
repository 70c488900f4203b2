/** Where resources, goods and credits go in one trading phase (the embedded module
    `economy.rue`). */
module Economy {
  import opened Metric
  import opened Model
  import opened Tick

  datatype Ledger = Ledger(produced: nat, consumed: nat, transfers: nat, credits: nat, digest: nat, valid: bool)

  /** What the first `k` entities produce, consume, hand over and earn, and what of the consumption
      and the transfers the resources could actually pay. */
  datatype Totals = Totals(produced: nat, consumed: nat, transfers: nat, credits: nat, charged: nat, received: nat)

  function TotalsTo(s: State, k: nat): Totals
    requires k <= |s.entities|
  {
    if k == 0 then Totals(0, 0, 0, 0, 0, 0)
    else
      var t, e := TotalsTo(s, k - 1), s.entities[k - 1];
      var paid := Affords(Sweep(Trading, s, k - 1), e);
      Totals(t.produced + Produced(e), t.consumed + Consumed(e), t.transfers + Transfer(e),
             t.credits + Transfer(e) / 2,
             t.charged + (if paid then Consumed(e) else 0), t.received + (if paid then Transfer(e) else 0))
  }

  function Inventories(es: seq<Entity>, k: nat): nat
    requires k <= |es|
  {
    if k == 0 then 0 else Inventories(es, k - 1) + es[k - 1].inventory
  }

  function Credits(es: seq<Entity>, k: nat): nat
    requires k <= |es|
  {
    if k == 0 then 0 else Credits(es, k - 1) + es[k - 1].credits
  }

  /** Resources and treasury together gain what is produced and lose exactly the consumption that
      was charged; the treasury gains exactly the transfers that were paid. */
  lemma {:induction false} FundsConserved(s: State, k: nat)
    requires k <= |s.entities|
    ensures var (t, r) := (TotalsTo(s, k), Sweep(Trading, s, k));
      && r.resources + r.treasury + t.charged == s.resources + s.treasury + t.produced
      && r.treasury == s.treasury + t.received
      && t.charged <= t.consumed && t.received <= t.transfers
  {
    hide Turn;
    hide Produced;
    hide Consumed;
    hide Transfer;
    hide Affords;
    if k > 0 {
      FundsConserved(s, k - 1);
      SweepEntities(Trading, s, k - 1);
      TradeOfTurn(Sweep(Trading, s, k - 1), k - 1);
    }
  }

  lemma TradeOfTurn(s: State, i: nat)
    requires i < |s.entities|
    ensures var (e, r) := (s.entities[i], Turn(Trading, s, i));
      if Affords(s, e) then
        r.resources == s.resources + Produced(e) - Consumed(e) - Transfer(e) && r.treasury == s.treasury + Transfer(e)
      else
        r.resources == s.resources + Produced(e) && r.treasury == s.treasury
  {
    hide EntityAfter;
    hide EventsOf;
    hide Produced;
    hide Consumed;
    hide Transfer;
  }

  /** Inventories gain what is produced and lose every transfer, paid or not; credits gain half of
      every transfer. */
  lemma {:induction false} GoodsConserved(s: State, k: nat)
    requires k <= |s.entities|
    ensures var (t, after) := (TotalsTo(s, k), All(Trading, s).entities);
      && |after| == |s.entities|
      && Inventories(after, k) + t.transfers == Inventories(s.entities, k) + t.produced
      && Credits(after, k) == Credits(s.entities, k) + t.credits
      && 2 * t.credits == t.transfers
  {
    hide Sweep;
    hide Produced;
    hide Consumed;
    hide Transfer;
    hide Affords;
    if k > 0 {
      GoodsConserved(s, k - 1);
      SweepEntities(Trading, s, |s.entities|);
      GoodsOfTurn(s, s.entities[k - 1]);
    }
  }

  lemma GoodsOfTurn(s: State, e: Entity)
    ensures EntityAfter(Trading, s, e).inventory + Transfer(e) == e.inventory + Produced(e)
    ensures EntityAfter(Trading, s, e).credits == e.credits + Transfer(e) / 2
    ensures 2 * (Transfer(e) / 2) == Transfer(e)
  {
  }

  /** The books of a whole phase. */
  lemma PhaseConserves(s: State)
    ensures var n := |s.entities|;
      var (t, r) := (TotalsTo(s, n), All(Trading, s));
      && r.resources + r.treasury == s.resources + s.treasury + t.produced - t.charged
      && r.treasury == s.treasury + t.received
      && Inventories(r.entities, n) == Inventories(s.entities, n) + t.produced - t.transfers
      && Credits(r.entities, n) == Credits(s.entities, n) + t.credits && 2 * t.credits == t.transfers
      && r.resources + r.treasury + t.consumed + t.credits >= s.resources + s.treasury
  {
    FundsConserved(s, |s.entities|);
    GoodsConserved(s, |s.entities|);
  }

  /** A living entity never ends the phase holding more than 7, if it began with at most 8. */
  lemma InventoryStaysSmall(s: State, i: nat)
    requires i < |s.entities| && s.entities[i].alive && s.entities[i].inventory <= 8
    ensures All(Trading, s).entities[i].inventory <= 7
  {
    SweepEntities(Trading, s, |s.entities|);
  }

  ghost predicate AllPaid(s: State, k: nat)
    requires k <= |s.entities|
  {
    forall i :: 0 <= i < k && Transfer(s.entities[i]) > 0 ==> Affords(Sweep(Trading, s, i), s.entities[i])
  }

  /** Goods handed over reach the treasury in full exactly when every transfer could be paid;
      an unpaid transfer leaves the inventory and arrives nowhere. */
  lemma {:induction false} UnpaidTransfersVanish(s: State, k: nat)
    requires k <= |s.entities|
    ensures TotalsTo(s, k).received == TotalsTo(s, k).transfers <==> AllPaid(s, k)
  {
    hide Sweep;
    hide Affords;
    hide Transfer;
    if k > 0 {
      FundsConserved(s, k - 1);
      UnpaidTransfersVanish(s, k - 1);
      var e := s.entities[k - 1];
      var paid := Affords(Sweep(Trading, s, k - 1), e);
      assert AllPaid(s, k) <==> AllPaid(s, k - 1) && (Transfer(e) > 0 ==> paid);
      hide AllPaid;
    }
  }

  /** Whatever the turns before cost, resources that cover all consumption and all transfers of the
      phase, production aside, pay for every transfer. */
  lemma {:induction false} EnoughResourcesPayAll(s: State, k: nat)
    requires k <= |s.entities|
    requires s.resources >= TotalsTo(s, k).consumed + TotalsTo(s, k).transfers
    ensures AllPaid(s, k) && TotalsTo(s, k).received == TotalsTo(s, k).transfers
    ensures TotalsTo(s, k).charged == TotalsTo(s, k).consumed
  {
    hide Sweep;
    hide Transfer;
    hide Consumed;
    hide Produced;
    if k > 0 {
      EnoughResourcesPayAll(s, k - 1);
      FundsConserved(s, k - 1);
      UnpaidTransfersVanish(s, k);
    }
  }

  /** A worker whose store runs over while nothing is left to consume: its goods vanish. */
  const STRANDED := Entity(1, WORKER, 1, 0, 0, 0, 0, 0, 0, 100, 100, 1, NONE, 5, 10, 0, 0, 0, true)

  const BARREN := State(0, 0, 1, 1, [STRANDED], [], [], [], [], [], 0, 0, 0, 0, 0, 2, 1, true)

  lemma GoodsCanVanish()
    ensures TotalsTo(BARREN, 1).transfers == 4 && TotalsTo(BARREN, 1).received == 0
    ensures Inventories(All(Trading, BARREN).entities, 1) == Inventories(BARREN.entities, 1) + 3 - 4
    ensures All(Trading, BARREN).treasury == BARREN.treasury
  {
    assert TotalsTo(BARREN, 0) == Totals(0, 0, 0, 0, 0, 0);
    assert Sweep(Trading, BARREN, 0) == BARREN;
    FundsConserved(BARREN, 1);
    GoodsConserved(BARREN, 1);
  }

  /** The words of the ledger's digest, one for each living entity. */
  function LedgerWords(es: seq<Entity>, k: nat): seq<nat>
    requires k <= |es|
  {
    if k == 0 then []
    else if es[k - 1].alive then
      LedgerWords(es, k - 1) + [es[k - 1].id + Produced(es[k - 1]) * 17 + Transfer(es[k - 1]) * 31]
    else LedgerWords(es, k - 1)
  }

  /** The ledger of a trading phase that starts in `s`. */
  function LedgerOf(s: State): Ledger {
    var t := TotalsTo(s, |s.entities|);
    Ledger(t.produced, t.consumed, t.transfers, t.credits,
           Digest(Mix(OFFSET_BASIS, s.tick), LedgerWords(s.entities, |s.entities|)), true)
  }
}
