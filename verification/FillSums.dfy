/** What the fills of a ledger add up to. */
module FillSums {
  import opened RustInts
  import opened PaperTypes
  import opened Sequences

  function GrossSum(fills: seq<PaperFill>): nat {
    if fills == [] then 0 else GrossSum(Init(fills)) + Last(fills).grossWei
  }

  function GasSum(fills: seq<PaperFill>): nat {
    if fills == [] then 0 else GasSum(Init(fills)) + Last(fills).gasWei
  }

  function NetSum(fills: seq<PaperFill>): int {
    if fills == [] then 0 else NetSum(Init(fills)) + Last(fills).netWei
  }

  /** The wallet that the fills so far leave. */
  function WalletOf(p: LedgerPolicy, fills: seq<PaperFill>): int {
    Min(p.startingGasWei + NetSum(fills), U128_MAX)
  }

  /** What it has above the reserve. */
  function Spare(p: LedgerPolicy, fills: seq<PaperFill>): int {
    Max(WalletOf(p, fills) - p.reserveWei, 0)
  }

  lemma SumsAppend(fills: seq<PaperFill>, f: PaperFill)
    ensures GrossSum(fills + [f]) == GrossSum(fills) + f.grossWei
    ensures GasSum(fills + [f]) == GasSum(fills) + f.gasWei
    ensures NetSum(fills + [f]) == NetSum(fills) + f.netWei
  {
    assert Init(fills + [f]) == fills && Last(fills + [f]) == f;
  }

  /** `best` is the largest net of a fill, or zero without one. */
  ghost predicate BestOf(fills: seq<PaperFill>, best: int) {
    && (forall f :: f in fills ==> f.netWei <= best)
    && (best == 0 || exists f :: f in fills && f.netWei == best)
  }

  lemma BestSnoc(fills: seq<PaperFill>, f: PaperFill, best: int)
    requires BestOf(fills, best)
    ensures BestOf(fills + [f], Max(best, f.netWei))
  {
    var more := fills + [f];
    assert f in more;
    if best != 0 {
      var g :| g in fills && g.netWei == best;
      assert g in more;
    }
  }
}
