/** The dashboard's figures over all contracts. */
module Dashboard {
  import opened Wrappers
  import opened Seqs
  import opened Contracts

  /** `totalValue`: the sum of the contract values, taken left to right from 0. */
  function TotalValue(cs: seq<Contract>): real
  {
    Total(cs, Value)
  }

  /** The total of two lists placed one after the other is the sum of their totals; in
      particular appending a contract adds its value. */
  lemma TotalValueAppend(a: seq<Contract>, b: seq<Contract>)
    ensures TotalValue(a + b) == TotalValue(a) + TotalValue(b)
    ensures TotalValue(a + [b[0]]) == TotalValue(a) + b[0].value <== b != []
  {
    TotalAppend(a, b, Value);
    if b != [] {
      TotalAppend(a, [b[0]], Value);
    }
  }

  /** Contracts of non-negative value give a non-negative total, no smaller than any one value. */
  lemma TotalValueNonNegative(cs: seq<Contract>)
    requires forall c :: c in cs ==> c.value >= 0.0
    ensures TotalValue(cs) >= 0.0
    ensures forall i :: 0 <= i < |cs| ==> cs[i].value <= TotalValue(cs)
  {
    TotalNonNegative(cs, Value);
    forall i | 0 <= i < |cs| ensures cs[i].value <= TotalValue(cs) {
      assert cs == cs[..i] + [cs[i]] + cs[i + 1..];
      TotalAppend(cs[..i] + [cs[i]], cs[i + 1..], Value);
      TotalAppend(cs[..i], [cs[i]], Value);
      TotalNonNegative(cs[..i], Value);
      TotalNonNegative(cs[i + 1..], Value);
    }
  }

  /** `totalCommission`: the plain sum of the commissions. A record without a commission makes
      the sum undefined (`NaN`), modelled as `None`. */
  function TotalCommission(cs: seq<Contract>): (r: Option<real>)
    ensures r.Some? <==> forall c :: c in cs ==> c.commission.Some?
    ensures r.Some? ==> r.value == Total(cs, Commission)
    decreases |cs|
  {
    if cs == [] then Some(0.0)
    else
      var init, last := cs[..|cs| - 1], cs[|cs| - 1];
      InitMembers(cs);
      match (TotalCommission(init), last.commission)
      case (Some(sum), Some(commission)) => Some(sum + commission)
      case _ => None
  }

  /** When every commission is a tenth of its contract's value, as for the contracts the main page
      creates, the commission total is a tenth of the value total. */
  lemma {:induction false} CommissionIsTenthOfValue(cs: seq<Contract>)
    requires forall c :: c in cs ==> c.commission.Some? && c.commission.value * 10.0 == c.value
    ensures TotalCommission(cs) == Some(TotalValue(cs) / 10.0)
    decreases |cs|
  {
    if cs != [] {
      InitMembers(cs);
      CommissionIsTenthOfValue(cs[..|cs| - 1]);
    }
  }

  /** The active and the pending contracts together are at most all contracts. */
  lemma ActiveAndPendingBounded(cs: seq<Contract>)
    ensures StatusCount(cs, "Ativo") + StatusCount(cs, "Pendente") <= |cs|
  {
    var s := ["Ativo", "Pendente"];
    StatusCountsPartition(cs, s);
    assert s[..1][..0] == [];
    assert SumCounts(cs, s[..1]) == StatusCount(cs, s[0]);
  }

  /** `recentContracts`: the last three contracts, newest first. */
  function RecentContracts(cs: seq<Contract>): (r: seq<Contract>)
    ensures |r| == if |cs| < 3 then |cs| else 3
    ensures forall i :: 0 <= i < |r| ==> r[i] == cs[|cs| - 1 - i]
  {
    var n := if |cs| < 3 then |cs| else 3;
    seq(n, i requires 0 <= i < n => cs[|cs| - 1 - i])
  }

  /** A contract just appended is shown first, and the previously newest follow it. */
  lemma AppendedIsMostRecent(cs: seq<Contract>, c: Contract)
    ensures RecentContracts(cs + [c])[0] == c
    ensures RecentContracts(cs + [c])[1..] == RecentContracts(cs)[..|RecentContracts(cs + [c])| - 1]
  {
    var r, r' := RecentContracts(cs + [c]), RecentContracts(cs);
    assert |r| - 1 <= |r'|;
    forall i | 0 <= i < |r| - 1 ensures r[1..][i] == r'[i] {
      assert r[i + 1] == (cs + [c])[|cs| - 1 - i];
    }
  }
}
