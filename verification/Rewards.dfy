/** `calculate_block_reward` and the two pro-rata distribution loops. */
module Rewards {
  import opened Arith
  import opened MapSums
  import opened Types
  import opened Ledger
  import opened Selection

  datatype BlockReward = BlockReward(total: nat, minerReward: nat, stakersReward: nat)

  function CalculateBlockReward(total: nat): (r: BlockReward)
    ensures r.minerReward + r.stakersReward == r.total == total
    ensures r.minerReward * 100 <= total * 40 < r.minerReward * 100 + 100
  {
    var minerReward := total * 40 / 100;
    BlockReward(total, minerReward, total - minerReward)
  }

  /** One staker's payment. */
  function Payment(reward: nat, stake: nat, totalStake: nat): nat
    requires totalStake > 0
  {
    reward * stake / totalStake
  }

  // ----- Pro-rata laws

  ghost function Payments(stakes: map<AccountId, nat>, reward: nat, totalStake: nat): map<AccountId, nat>
    requires totalStake > 0
  {
    map a | a in stakes :: Payment(reward, stakes[a], totalStake)
  }

  ghost function Positive(stakes: map<AccountId, nat>): set<AccountId>
  {
    set a | a in stakes && stakes[a] > 0
  }

  lemma PaymentBounds(reward: nat, stake: nat, t: nat)
    requires t > 0
    ensures Payment(reward, stake, t) * t <= reward * stake
    ensures reward * stake <= Payment(reward, stake, t) * t + (if stake > 0 then t - 1 else 0)
  {
    var q := Payment(reward, stake, t);
    DivIsLargest(reward * stake, t, q);
    DivIsLargest(reward * stake, t, q + 1);
  }

  lemma PaymentsRemove(stakes: map<AccountId, nat>, reward: nat, t: nat, a: AccountId)
    requires t > 0 && a in stakes
    ensures Sum(Payments(stakes, reward, t)) == Payment(reward, stakes[a], t) + Sum(Payments(stakes - {a}, reward, t))
  {
    hide Payment;
    SumRemove(Payments(stakes, reward, t), a);
    assert Payments(stakes, reward, t) - {a} == Payments(stakes - {a}, reward, t);
  }

  lemma PositiveRemove(stakes: map<AccountId, nat>, a: AccountId)
    requires a in stakes
    ensures |Positive(stakes)| == |Positive(stakes - {a})| + (if stakes[a] > 0 then 1 else 0)
  {
    if stakes[a] > 0 {
      assert Positive(stakes) == Positive(stakes - {a}) + {a};
    } else {
      assert Positive(stakes) == Positive(stakes - {a});
    }
  }

  lemma {:induction false} PaymentsBounds(stakes: map<AccountId, nat>, reward: nat, t: nat)
    requires t > 0
    ensures Sum(Payments(stakes, reward, t)) * t <= reward * Sum(stakes)
    ensures reward * Sum(stakes) <= Sum(Payments(stakes, reward, t)) * t + |Positive(stakes)| * (t - 1)
    decreases |stakes|
  {
    hide Payment, Positive;
    if stakes == map[] {
      assert Payments(stakes, reward, t) == map[];
    } else {
      var a :| a in stakes;
      var rest := stakes - {a};
      RemoveShrinks(stakes, a);
      SumRemove(stakes, a);
      PaymentsRemove(stakes, reward, t, a);
      PaymentsBounds(rest, reward, t);
      PaymentBounds(reward, stakes[a], t);
      PositiveRemove(stakes, a);
      AddPayment(reward, t, stakes[a], Sum(rest), Sum(stakes),
                 Payment(reward, stakes[a], t), Sum(Payments(rest, reward, t)), Sum(Payments(stakes, reward, t)),
                 |Positive(rest)|, |Positive(stakes)|);
    }
  }

  lemma AddPayment(r: nat, t: nat, s: nat, ss: nat, sss: nat, p: nat, ps: nat, pps: nat, k: nat, kk: nat)
    requires t > 0 && p * t <= r * s && ps * t <= r * ss
    requires r * s <= p * t + (if s > 0 then t - 1 else 0) && r * ss <= ps * t + k * (t - 1)
    requires sss == s + ss && pps == p + ps && kk == k + (if s > 0 then 1 else 0)
    ensures pps * t <= r * sss <= pps * t + kk * (t - 1)
  {}

  /** Payments never exceed the stakers' share and fall short by less than one unit per paid staker. */
  lemma ProRata(stakes: map<AccountId, nat>, reward: nat)
    requires Sum(stakes) > 0
    ensures Sum(Payments(stakes, reward, Sum(stakes))) <= reward
    ensures reward < Sum(Payments(stakes, reward, Sum(stakes))) + |Positive(stakes)|
  {
    var t := Sum(stakes);
    PaymentsBounds(stakes, reward, t);
    SomePositive(stakes);
    CancelShares(Sum(Payments(stakes, reward, t)), reward, |Positive(stakes)|, t);
  }

  lemma {:induction false} SomePositive(stakes: map<AccountId, nat>)
    requires Sum(stakes) > 0
    ensures |Positive(stakes)| > 0
    decreases |stakes|
  {
    hide Positive;
    var a :| a in stakes;
    SumRemove(stakes, a);
    RemoveShrinks(stakes, a);
    PositiveRemove(stakes, a);
    if stakes[a] == 0 { SomePositive(stakes - {a}); }
  }

  lemma CancelShares(p: nat, r: nat, k: nat, t: nat)
    requires t > 0 && k > 0 && p * t <= r * t <= p * t + k * (t - 1)
    ensures p <= r < p + k
  {
    if p > r { MulMono(r + 1, p, t); }
    if r >= p + k { MulMono(p + k, r, t); }
  }

  /** A larger stake is never paid less. */
  lemma PaymentMono(reward: nat, s: nat, s': nat, t: nat)
    requires s <= s' && t > 0
    ensures Payment(reward, s, t) <= Payment(reward, s', t)
  {
    MulMono(s, s', reward);
    DivMono(reward * s, reward * s', t);
  }

  // ----- Iteration order of a storage map

  /** `order` lists every element of `s` once. */
  ghost predicate Enumerates(order: seq<AccountId>, s: set<AccountId>)
  {
    (forall a :: a in order <==> a in s) && (forall i, j :: 0 <= i < j < |order| ==> order[i] != order[j])
  }

  /** `ValidatorStakes::iter()` collected into a list, in the given order. */
  function StakerList(stakes: map<AccountId, nat>, order: seq<AccountId>): (list: seq<ValidatorStake>)
    ensures |list| == |order|
  {
    seq(|order|, i requires 0 <= i < |order| =>
      ValidatorStake(order[i], Get(stakes, order[i]), SaturateU64(Get(stakes, order[i]))))
  }

  function TotalStake(list: seq<ValidatorStake>): nat
  {
    if list == [] then 0 else TotalStake(list[..|list| - 1]) + list[|list| - 1].stake
  }

  /** Any enumeration of the map adds up to the same total stake. */
  lemma {:induction false} TotalStakeIsSum(stakes: map<AccountId, nat>, order: seq<AccountId>)
    requires Enumerates(order, stakes.Keys)
    ensures TotalStake(StakerList(stakes, order)) == Sum(stakes)
    decreases |order|
  {
    if order == [] {
      assert stakes == map[];
    } else {
      var k := |order| - 1;
      var a := order[k];
      var rest := stakes - {a};
      SumRemove(stakes, a);
      EnumerateRest(order, stakes.Keys);
      assert rest.Keys == stakes.Keys - {a};
      TotalStakeIsSum(rest, order[..k]);
      StakerListFront(stakes, order);
    }
  }

  lemma StakerListFront(stakes: map<AccountId, nat>, order: seq<AccountId>)
    requires order != [] && Enumerates(order, stakes.Keys)
    ensures var k := |order| - 1;
            && StakerList(stakes, order)[..k] == StakerList(stakes - {order[k]}, order[..k])
            && StakerList(stakes, order)[k].account == order[k]
            && StakerList(stakes, order)[k].stake == Get(stakes, order[k])
  {}

  lemma EnumerateRest(order: seq<AccountId>, s: set<AccountId>)
    requires order != [] && Enumerates(order, s)
    ensures Enumerates(order[..|order| - 1], s - {order[|order| - 1]})
  {
    var k := |order| - 1;
    forall a ensures a in order[..k] <==> a in s - {order[k]} {
      if a in s && a != order[k] {
        var i :| 0 <= i < |order| && order[i] == a;
        assert order[..k][i] == a;
      }
    }
  }

  // ----- The two distribution loops

  /** Deposits to the listed stakers, one after the other. */
  function PayStakers(l: Ledger, ed: nat, list: seq<ValidatorStake>, reward: nat, totalStake: nat): Ledger
    requires totalStake > 0
  {
    if list == [] then l
    else
      var k := |list| - 1;
      Deposit(PayStakers(l, ed, list[..k], reward, totalStake), ed, list[k].account,
              Payment(reward, list[k].stake, totalStake))
  }

  /** The ledger after the miner's deposit and, if anything is staked, the stakers' deposits. */
  function PaidOut(l: Ledger, ed: nat, miner: AccountId, list: seq<ValidatorStake>, r: BlockReward): Ledger
  {
    var l1 := Deposit(l, ed, miner, r.minerReward);
    if TotalStake(list) == 0 then l1 else PayStakers(l1, ed, list, r.stakersReward, TotalStake(list))
  }

  /** The u128 sums and products of the loop that would overflow. */
  ghost predicate PayoutOverflows(list: seq<ValidatorStake>, r: BlockReward)
  {
    TotalStake(list) >= U128_LIMIT
    || (TotalStake(list) > 0 && exists i :: 0 <= i < |list| && r.stakersReward * list[i].stake >= U128_LIMIT)
  }

  // ----- What the loops do to the ledger

  function Lookup(m: map<AccountId, nat>, a: AccountId): Option<nat>
  {
    if a in m then Some(m[a]) else None
  }

  /** The effect of one deposit on one account. */
  function Credited(before: Option<nat>, ed: nat, v: nat): Option<nat>
  {
    match before
    case None => if v == 0 || v < ed || v >= U128_LIMIT then None else Some(v)
    case Some(b) => if b + v >= U128_LIMIT then Some(b) else Some(b + v)
  }

  lemma DepositAccount(l: Ledger, ed: nat, a: AccountId, v: nat, b: AccountId)
    ensures Lookup(Deposit(l, ed, a, v).free, b)
         == if a == b then Credited(Lookup(l.free, b), ed, v) else Lookup(l.free, b)
  {}

  /** Every listed account receives its own payment; nobody else is touched. */
  lemma {:induction false} PayStakersAccount(l: Ledger, ed: nat, stakes: map<AccountId, nat>, order: seq<AccountId>,
                                             reward: nat, t: nat, a: AccountId)
    requires t > 0 && Enumerates(order, stakes.Keys)
    ensures Lookup(PayStakers(l, ed, StakerList(stakes, order), reward, t).free, a)
         == if a in order then Credited(Lookup(l.free, a), ed, Payment(reward, stakes[a], t))
            else Lookup(l.free, a)
    decreases |order|
  {
    hide Payment, StakerList, Deposit;
    if order != [] {
      var k := |order| - 1;
      EnumerateRest(order, stakes.Keys);
      DepositAccount(PayStakers(l, ed, StakerList(stakes, order)[..k], reward, t), ed, order[k],
                     Payment(reward, stakes[order[k]], t), a);
      assert (stakes - {order[k]}).Keys == stakes.Keys - {order[k]};
      PayStakersAccount(l, ed, stakes - {order[k]}, order[..k], reward, t, a);
      StakerListFront(stakes, order);
    }
  }

  lemma {:induction false} PayStakersKeepsValid(l: Ledger, ed: nat, stakes: map<AccountId, nat>, order: seq<AccountId>,
                                                reward: nat, t: nat)
    requires t > 0 && ed > 0 && Enumerates(order, stakes.Keys)
    requires Valid(l, ed) && l.issuance + Sum(Payments(stakes, reward, t)) < U128_LIMIT
    ensures var l' := PayStakers(l, ed, StakerList(stakes, order), reward, t);
            Valid(l', ed) && l.issuance <= l'.issuance <= l.issuance + Sum(Payments(stakes, reward, t))
    decreases |order|
  {
    hide Payment, Payments, Valid, Deposit;
    if order != [] {
      var k := |order| - 1;
      var a := order[k];
      EnumerateRest(order, stakes.Keys);
      assert (stakes - {a}).Keys == stakes.Keys - {a};
      PaymentsRemove(stakes, reward, t, a);
      PayStakersKeepsValid(l, ed, stakes - {a}, order[..k], reward, t);
      StakerListFront(stakes, order);
      DepositKeepsValid(PayStakers(l, ed, StakerList(stakes - {a}, order[..k]), reward, t), ed, a,
                        Payment(reward, stakes[a], t));
    }
  }

  /** A whole payout mints at most the block reward and keeps the ledger sound. */
  lemma PaidOutKeepsValid(l: Ledger, ed: nat, miner: AccountId, stakes: map<AccountId, nat>, order: seq<AccountId>,
                          total: nat)
    requires ed > 0 && Enumerates(order, stakes.Keys)
    requires Valid(l, ed) && l.issuance + total < U128_LIMIT
    ensures var l' := PaidOut(l, ed, miner, StakerList(stakes, order), CalculateBlockReward(total));
            Valid(l', ed) && l.issuance <= l'.issuance <= l.issuance + total
  {
    hide Payments, Valid, Deposit;
    var r := CalculateBlockReward(total);
    TotalStakeIsSum(stakes, order);
    DepositKeepsValid(l, ed, miner, r.minerReward);
    if Sum(stakes) > 0 {
      ProRata(stakes, r.stakersReward);
      PayStakersKeepsValid(Deposit(l, ed, miner, r.minerReward), ed, stakes, order, r.stakersReward, Sum(stakes));
    }
  }

  /** A deposit that is large enough to open its account is minted in full. */
  lemma DepositMints(l: Ledger, ed: nat, a: AccountId, v: nat)
    requires Valid(l, ed) && l.issuance + v < U128_LIMIT && (a in l.free || v == 0 || v >= ed)
    ensures Deposit(l, ed, a, v).issuance == l.issuance + v
    ensures l.free.Keys <= Deposit(l, ed, a, v).free.Keys
  {
    hide Sum;
    SumAtLeast(l.free, a);
  }

  /** Every listed payment can be credited. */
  ghost predicate AllCreditable(l: Ledger, ed: nat, stakes: map<AccountId, nat>, reward: nat, t: nat)
    requires t > 0
  {
    forall a :: a in stakes ==> a in l.free || Payment(reward, stakes[a], t) == 0 || Payment(reward, stakes[a], t) >= ed
  }

  lemma {:induction false} PayStakersMints(l: Ledger, ed: nat, stakes: map<AccountId, nat>, order: seq<AccountId>,
                                           reward: nat, t: nat)
    requires t > 0 && ed > 0 && Enumerates(order, stakes.Keys) && AllCreditable(l, ed, stakes, reward, t)
    requires Valid(l, ed) && l.issuance + Sum(Payments(stakes, reward, t)) < U128_LIMIT
    ensures PayStakers(l, ed, StakerList(stakes, order), reward, t).issuance
         == l.issuance + Sum(Payments(stakes, reward, t))
    decreases |order|
  {
    hide Payment, Payments, Valid, Deposit, Sum;
    if order == [] {
      assert stakes == map[];
      NoPayments(reward, t);
    } else {
      var k := |order| - 1;
      var a := order[k];
      var rest := stakes - {a};
      EnumerateRest(order, stakes.Keys);
      assert rest.Keys == stakes.Keys - {a};
      PaymentsRemove(stakes, reward, t, a);
      PayStakersKeepsValid(l, ed, rest, order[..k], reward, t);
      PayStakersMints(l, ed, rest, order[..k], reward, t);
      PayStakersAccount(l, ed, rest, order[..k], reward, t, a);
      StakerListFront(stakes, order);
      DepositMints(PayStakers(l, ed, StakerList(rest, order[..k]), reward, t), ed, a, Payment(reward, stakes[a], t));
    }
  }

  lemma NoPayments(reward: nat, t: nat)
    requires t > 0
    ensures Sum(Payments(map[], reward, t)) == 0
  {
    assert Payments(map[], reward, t) == map[];
  }

  /** Everything can be credited: the miner's share, and after it every staker's payment. */
  ghost predicate NothingDropped(l: Ledger, ed: nat, miner: AccountId, stakes: map<AccountId, nat>, r: BlockReward)
  {
    && (miner in l.free || r.minerReward == 0 || r.minerReward >= ed)
    && (Sum(stakes) > 0 ==> AllCreditable(Deposit(l, ed, miner, r.minerReward), ed, stakes, r.stakersReward, Sum(stakes)))
  }

  /** When nothing is dropped, only rounding keeps a payout with stakers from minting the whole reward. */
  lemma PaidOutMints(l: Ledger, ed: nat, miner: AccountId, stakes: map<AccountId, nat>, order: seq<AccountId>, total: nat)
    requires ed > 0 && Enumerates(order, stakes.Keys) && Sum(stakes) > 0
    requires Valid(l, ed) && l.issuance + total < U128_LIMIT
    requires NothingDropped(l, ed, miner, stakes, CalculateBlockReward(total))
    ensures var l' := PaidOut(l, ed, miner, StakerList(stakes, order), CalculateBlockReward(total));
            l.issuance + total < l'.issuance + |Positive(stakes)| && l'.issuance <= l.issuance + total
  {
    hide Payments, Payment, Valid, Deposit, Sum, AllCreditable, Positive;
    var r := CalculateBlockReward(total);
    TotalStakeIsSum(stakes, order);
    DepositKeepsValid(l, ed, miner, r.minerReward);
    DepositMints(l, ed, miner, r.minerReward);
    ProRata(stakes, r.stakersReward);
    PayStakersMints(Deposit(l, ed, miner, r.minerReward), ed, stakes, order, r.stakersReward, Sum(stakes));
  }

  /** The final ledger does not depend on the order in which the stakers are visited. */
  lemma PayoutOrderIndependent(l: Ledger, ed: nat, miner: AccountId, stakes: map<AccountId, nat>,
                               order: seq<AccountId>, order': seq<AccountId>, total: nat)
    requires ed > 0 && Enumerates(order, stakes.Keys) && Enumerates(order', stakes.Keys)
    requires Valid(l, ed) && l.issuance + total < U128_LIMIT
    ensures PaidOut(l, ed, miner, StakerList(stakes, order), CalculateBlockReward(total))
         == PaidOut(l, ed, miner, StakerList(stakes, order'), CalculateBlockReward(total))
  {
    hide Payment, Deposit, StakerList, PayStakers;
    var r := CalculateBlockReward(total);
    PaidOutKeepsValid(l, ed, miner, stakes, order, total);
    PaidOutKeepsValid(l, ed, miner, stakes, order', total);
    TotalStakeIsSum(stakes, order);
    TotalStakeIsSum(stakes, order');
    if Sum(stakes) > 0 {
      var l1 := Deposit(l, ed, miner, r.minerReward);
      var left := PayStakers(l1, ed, StakerList(stakes, order), r.stakersReward, Sum(stakes));
      var right := PayStakers(l1, ed, StakerList(stakes, order'), r.stakersReward, Sum(stakes));
      forall a ensures Lookup(left.free, a) == Lookup(right.free, a) {
        PayStakersAccount(l1, ed, stakes, order, r.stakersReward, Sum(stakes), a);
        PayStakersAccount(l1, ed, stakes, order', r.stakersReward, Sum(stakes), a);
      }
      SameLookups(left.free, right.free);
    }
  }

  lemma SameLookups(m: map<AccountId, nat>, n: map<AccountId, nat>)
    requires forall a :: Lookup(m, a) == Lookup(n, a)
    ensures m == n
  {
    assert forall a :: a in m <==> Lookup(m, a).Some?;
    assert forall a :: a in n <==> Lookup(n, a).Some?;
    assert forall a :: a in m ==> m[a] == Lookup(m, a).value == n[a];
  }
}
