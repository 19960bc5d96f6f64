/** When the chain of parent hashes survives, and a chain on which it does not. */
module Links {
  import opened Arith
  import opened MapSums
  import opened Types
  import opened Ledger
  import opened Rewards
  import opened Protocol
  import opened Runs
  import opened Theorems
  import opened Coverage
  import opened Scenarios

  /** Every header above 0 names the hash of the stored header below it. */
  ghost predicate Linked(cfg: Config, headers: map<u32, Header>)
  {
    forall k :: k in headers && k > 0 ==> k - 1 in headers && headers[k].parentHash == cfg.hashHeader(headers[k - 1])
  }

  /** Some stored header is built on top of `number`. */
  predicate HasChild(headers: map<u32, Header>, number: u32)
  {
    number + 1 < U32_LIMIT && number + 1 in headers
  }

  /** Writing `h` as block `number` changes no hash that a stored child names. */
  predicate LinkSafe(cfg: Config, headers: map<u32, Header>, number: u32, h: Header)
  {
    HasChild(headers, number) ==> number in headers && cfg.hashHeader(h) == cfg.hashHeader(headers[number])
  }

  /** Writing a header that names its parent keeps the store linked unless it changes a hash under a child. */
  lemma WritingKeepsLinksIff(cfg: Config, headers: map<u32, Header>, number: u32, h: Header)
    requires Linked(cfg, headers)
    requires number > 0 ==> number - 1 in headers && h.parentHash == cfg.hashHeader(headers[number - 1])
    ensures Linked(cfg, headers[number := h]) <==> LinkSafe(cfg, headers, number, h)
  {
    var headers' := headers[number := h];
    if HasChild(headers, number) {
      var child: u32 := number + 1;
      assert child in headers && child - 1 == number;
      assert headers[child].parentHash == cfg.hashHeader(headers[child - 1]);
      if cfg.hashHeader(h) != cfg.hashHeader(headers[number]) {
        assert headers'[child].parentHash != cfg.hashHeader(headers'[child - 1]);
      }
    }
  }

  /** A submission keeps the store linked exactly when it does not change the hash of a header that has a child. */
  lemma SubmissionKeepsLinksIff(cfg: Config, s: State, miner: AccountId, h: Header)
    requires Linked(cfg, s.headers) && SubmitBlock(cfg, s, miner, h).1 == Ok
    ensures Linked(cfg, SubmitBlock(cfg, s, miner, h).0.headers) <==> LinkSafe(cfg, s.headers, h.number, h)
  {
    hide VerifyPow, PushProducer, Linked, LinkSafe;
    WritingKeepsLinksIff(cfg, s.headers, h.number, h);
  }

  /** Signing keeps the store linked exactly when it does not change the hash of a header that has a child. */
  lemma SigningKeepsLinksIff(cfg: Config, s: State, v: AccountId, number: u32, sig: PqcSignature)
    requires Linked(cfg, s.headers) && ValidateBlock(cfg, s, v, number, sig).1 == Ok
    ensures Linked(cfg, ValidateBlock(cfg, s, v, number, sig).0.headers)
       <==> LinkSafe(cfg, s.headers, number, Sign(cfg, s.headers[number], v, number, sig))
  {
    hide Stakers, PaidOut, PayoutOverflows, CheckPqc, LinkSafe;
    WritingKeepsLinksIff(cfg, s.headers, number, Sign(cfg, s.headers[number], v, number, sig));
  }

  // ----- Whole runs

  /** The header write of an accepted call, if it makes one, is safe. */
  ghost predicate SafeCall(cfg: Config, s: State, x: Extrinsic)
  {
    Dispatch(cfg, s, x).1 == Ok ==>
      match x
      case Signed(_, SubmitBlockCall(h)) => LinkSafe(cfg, s.headers, h.number, h)
      case Signed(v, ValidateBlockCall(number, sig)) =>
        number in s.headers && LinkSafe(cfg, s.headers, number, Sign(cfg, s.headers[number], v, number, sig))
      case _ => true
  }

  lemma CallKeepsLinksIff(cfg: Config, s: State, x: Extrinsic)
    requires Linked(cfg, s.headers)
    ensures Linked(cfg, Dispatch(cfg, s, x).0.headers) <==> SafeCall(cfg, s, x)
  {
    hide Linked, LinkSafe, SubmitBlock, ValidateBlock, Stake, Unstake, ReportMisbehavior, TransferOutside;
    match x
    case Signed(who, SubmitBlockCall(h)) =>
      if SubmitBlock(cfg, s, who, h).1 == Ok {
        SubmissionKeepsLinksIff(cfg, s, who, h);
      } else {
        RefusedWritesNothing(cfg, s, x);
      }
    case Signed(who, ValidateBlockCall(number, sig)) =>
      if ValidateBlock(cfg, s, who, number, sig).1 == Ok {
        ValidatedIsStored(cfg, s, who, number, sig);
        SigningKeepsLinksIff(cfg, s, who, number, sig);
      } else {
        RefusedWritesNothing(cfg, s, x);
      }
    case _ => OthersWriteNoHeader(cfg, s, x);
  }

  lemma RefusedWritesNothing(cfg: Config, s: State, x: Extrinsic)
    requires x.Signed? && (x.call.SubmitBlockCall? || x.call.ValidateBlockCall?) && Dispatch(cfg, s, x).1 != Ok
    ensures Dispatch(cfg, s, x).0 == s
  {
    hide ValidateHeader, Stakers, CheckPqc, PaidOut, PayoutOverflows;
  }

  lemma ValidatedIsStored(cfg: Config, s: State, v: AccountId, number: u32, sig: PqcSignature)
    requires ValidateBlock(cfg, s, v, number, sig).1 == Ok
    ensures number in s.headers
  {}

  lemma OthersWriteNoHeader(cfg: Config, s: State, x: Extrinsic)
    requires !(x.Signed? && (x.call.SubmitBlockCall? || x.call.ValidateBlockCall?))
    ensures Dispatch(cfg, s, x).0.headers == s.headers
  {
    hide Transfer;
  }

  /** The chain is linked after every call of a block. */
  ghost predicate CallsLinked(cfg: Config, s: State, xs: seq<Extrinsic>)
  {
    forall j :: 0 <= j <= |xs| ==> Linked(cfg, RunCalls(cfg, s, xs[..j]).headers)
  }

  ghost predicate CallsSafe(cfg: Config, s: State, xs: seq<Extrinsic>)
  {
    forall j :: 0 <= j < |xs| ==> SafeCall(cfg, RunCalls(cfg, s, xs[..j]), xs[j])
  }

  lemma {:induction false} SafeCallsLink(cfg: Config, s: State, xs: seq<Extrinsic>, j: nat)
    requires Linked(cfg, s.headers) && CallsSafe(cfg, s, xs) && j <= |xs|
    ensures Linked(cfg, RunCalls(cfg, s, xs[..j]).headers)
  {
    hide Linked, SafeCall, Dispatch;
    if j > 0 {
      SafeCallsLink(cfg, s, xs, j - 1);
      assert xs[..j][..j - 1] == xs[..j - 1];
      CallKeepsLinksIff(cfg, RunCalls(cfg, s, xs[..j - 1]), xs[j - 1]);
    }
  }

  lemma CallsLinkedIff(cfg: Config, s: State, xs: seq<Extrinsic>)
    requires Linked(cfg, s.headers)
    ensures CallsLinked(cfg, s, xs) <==> CallsSafe(cfg, s, xs)
  {
    hide Linked, SafeCall, Dispatch;
    if CallsSafe(cfg, s, xs) {
      forall j | 0 <= j <= |xs| ensures Linked(cfg, RunCalls(cfg, s, xs[..j]).headers) { SafeCallsLink(cfg, s, xs, j); }
    }
    if CallsLinked(cfg, s, xs) {
      forall j | 0 <= j < |xs| ensures SafeCall(cfg, RunCalls(cfg, s, xs[..j]), xs[j]) {
        assert xs[..j + 1][..j] == xs[..j];
        assert Linked(cfg, RunCalls(cfg, s, xs[..j]).headers) && Linked(cfg, RunCalls(cfg, s, xs[..j + 1]).headers);
        CallKeepsLinksIff(cfg, RunCalls(cfg, s, xs[..j]), xs[j]);
      }
    }
  }

  ghost predicate BlockLinked(cfg: Config, s: State, xs: seq<Extrinsic>)
  {
    Initialize(cfg, s).1 == Ok ==> CallsLinked(cfg, Initialize(cfg, s).0, xs)
  }

  ghost predicate BlockSafe(cfg: Config, s: State, xs: seq<Extrinsic>)
  {
    Initialize(cfg, s).1 == Ok ==> CallsSafe(cfg, Initialize(cfg, s).0, xs)
  }

  lemma BlockLinkedIff(cfg: Config, s: State, xs: seq<Extrinsic>)
    requires Linked(cfg, s.headers)
    ensures BlockLinked(cfg, s, xs) <==> BlockSafe(cfg, s, xs)
    ensures BlockLinked(cfg, s, xs) ==> Linked(cfg, RunBlock(cfg, s, xs).headers)
  {
    hide Linked, CallsSafe, Initialize, RunCalls;
    InitializeWritesNoChain(cfg, s);
    CallsLinkedIff(cfg, Initialize(cfg, s).0, xs);
    assert xs[..|xs|] == xs;
  }

  ghost predicate RunLinked(cfg: Config, s: State, blocks: seq<seq<Extrinsic>>)
  {
    forall i :: 0 <= i < |blocks| ==> BlockLinked(cfg, Run(cfg, s, blocks[..i]), blocks[i])
  }

  ghost predicate RunSafe(cfg: Config, s: State, blocks: seq<seq<Extrinsic>>)
  {
    forall i :: 0 <= i < |blocks| ==> BlockSafe(cfg, Run(cfg, s, blocks[..i]), blocks[i])
  }

  lemma {:induction false} LinkedUpTo(cfg: Config, s: State, blocks: seq<seq<Extrinsic>>, i: nat)
    requires Linked(cfg, s.headers) && i <= |blocks|
    requires RunLinked(cfg, s, blocks) || RunSafe(cfg, s, blocks)
    ensures Linked(cfg, Run(cfg, s, blocks[..i]).headers)
  {
    hide Linked, BlockLinked, BlockSafe, RunBlock;
    if i > 0 {
      LinkedUpTo(cfg, s, blocks, i - 1);
      assert blocks[..i][..i - 1] == blocks[..i - 1];
      BlockLinkedIff(cfg, Run(cfg, s, blocks[..i - 1]), blocks[i - 1]);
    }
  }

  /**
   * From a linked start the chain is linked after every call of a run, and at its end, if and only if no accepted
   * submission or validation of the run changes the hash of a header that has a child.
   */
  lemma RunLinkedIff(cfg: Config, s: State, blocks: seq<seq<Extrinsic>>)
    requires Linked(cfg, s.headers)
    ensures RunLinked(cfg, s, blocks) <==> RunSafe(cfg, s, blocks)
    ensures RunSafe(cfg, s, blocks) ==> Linked(cfg, Run(cfg, s, blocks).headers)
  {
    hide Linked, BlockLinked, BlockSafe, Run;
    if RunLinked(cfg, s, blocks) || RunSafe(cfg, s, blocks) {
      forall i | 0 <= i < |blocks|
        ensures BlockLinked(cfg, Run(cfg, s, blocks[..i]), blocks[i]) <==> BlockSafe(cfg, Run(cfg, s, blocks[..i]), blocks[i])
      {
        LinkedUpTo(cfg, s, blocks, i);
        BlockLinkedIff(cfg, Run(cfg, s, blocks[..i]), blocks[i]);
      }
      LinkedUpTo(cfg, s, blocks, |blocks|);
      assert blocks[..|blocks|] == blocks;
    }
  }

  /** No stored number exceeds `number`. */
  ghost predicate Topmost(headers: map<u32, Header>, number: u32)
  {
    forall k :: k in headers ==> k <= number
  }

  /** In particular a call is safe if it submits above every stored number or signs the highest stored block. */
  lemma TopmostIsSafe(cfg: Config, s: State, x: Extrinsic)
    requires x.Signed? && x.call.SubmitBlockCall? ==> Topmost(s.headers, x.call.header.number)
    requires x.Signed? && x.call.ValidateBlockCall? ==> Topmost(s.headers, x.call.number)
    ensures SafeCall(cfg, s, x)
  {
    hide SubmitBlock, Stake, Unstake, ReportMisbehavior, TransferOutside, Stakers, CheckPqc, Accept;
    if x.Signed? && x.call.ValidateBlockCall? && Dispatch(cfg, s, x).1 == Ok {
      ValidatedIsStored(cfg, s, x.who, x.call.number, x.call.signature);
    }
  }

  // ----- A chain that loses a link

  /** A funded account can stake, mine block 1, sign it with `sig`, and mine block 2 on top of it. */
  ghost predicate CanMineTwo(cfg: Config, g: State, who: AccountId, h1: Header, h2: Header, sig: PqcSignature)
  {
    && CanMineOne(cfg, g, who, h1) && CanStake(cfg, g, who)
    && h2.number == 2 && ValidateHeader(cfg, g.difficulty, h2, Sign(cfg, h1, who, 1, sig)) == Ok
  }

  /** Mining block 2 and then validating block `number`, which still waits or was signed before. */
  lemma SecondBlock(cfg: Config, g: State, who: AccountId, h1: Header, h2: Header, sig: PqcSignature,
                    number: u32, sig': PqcSignature)
    requires CanMineTwo(cfg, g, who, h1, h2, sig) && number in {1, 2}
    ensures var s := RunBlock(cfg, g, FirstBlock(cfg, who, who, h1, sig));
            var submit, validate := Signed(who, SubmitBlockCall(h2)), Signed(who, ValidateBlockCall(number, sig'));
            var mined := g.headers[1 := Sign(cfg, h1, who, 1, sig)][2 := h2];
            && RunBlock(cfg, s, [submit]).headers == mined
            && var s' := RunBlock(cfg, s, [submit, validate]);
               && s'.headers == mined[number := Sign(cfg, mined[number], who, number, sig')]
               && s'.phase == PowMining && s'.now == 2 && s'.difficulty == g.difficulty
  {
    hide Sum, PayoutOverflows, PaidOut, Stakers, Initialize, PushProducer, ValidateBlock, RunCalls, Sign, VerifyPow;
    AfterFirstBlock(cfg, g, who, who, h1, sig);
    var s1 := RunBlock(cfg, g, FirstBlock(cfg, who, who, h1, sig));
    var submit, validate := Signed(who, SubmitBlockCall(h2)), Signed(who, ValidateBlockCall(number, sig'));
    QuietInitialize(cfg, s1);
    var s2 := s1.(now := 2);
    var s3 := Dispatch(cfg, s2, submit).0;
    assert s3 == Submitted(s2, who, h2);
    SoleStakerValidates(cfg, s3, who, number, sig');
    ValidationLeaves(cfg, s3, who, number, sig');
    OneCall(cfg, s2, submit);
    AppendTwo(cfg, s2, [], submit, validate);
    NoCalls(cfg, s2);
    assert [] + [submit, validate] == [submit, validate];
  }

  /** Re-signing block 1 after block 2 was built on it breaks the link; without that last call the run is linked. */
  lemma ResigningBreaksLinks(cfg: Config, g: State, who: AccountId, h1: Header, h2: Header, sig: PqcSignature,
                             sig': PqcSignature)
    requires CanMineTwo(cfg, g, who, h1, h2, sig)
    requires cfg.hashHeader(Sign(cfg, h1, who, 1, sig')) != cfg.hashHeader(Sign(cfg, h1, who, 1, sig))
    ensures var first, submit, resign := FirstBlock(cfg, who, who, h1, sig),
                                         Signed(who, SubmitBlockCall(h2)), Signed(who, ValidateBlockCall(1, sig'));
            && GenesisRun(cfg, g, [first, [submit, resign]])
            && Linked(cfg, Run(cfg, g, [first, [submit]]).headers)
            && !Linked(cfg, Run(cfg, g, [first, [submit, resign]]).headers)
  {
    hide Sum, RunBlock, Sign, Linked, VerifyPow;
    var first, submit, resign := FirstBlock(cfg, who, who, h1, sig),
                                 Signed(who, SubmitBlockCall(h2)), Signed(who, ValidateBlockCall(1, sig'));
    SecondBlock(cfg, g, who, h1, h2, sig, 1, sig');
    TwoBlocks(cfg, g, first, [submit]);
    TwoBlocks(cfg, g, first, [submit, resign]);
    SignTwice(cfg, h1, who, 1, sig, sig');
    LinkLost(cfg, g.headers, Sign(cfg, h1, who, 1, sig), Sign(cfg, h1, who, 1, sig'), h2);
  }

  /** So does mining block 1 once more, after block 2 has been validated. */
  lemma ResubmissionBreaksLinks(cfg: Config, g: State, who: AccountId, h1: Header, h2: Header, sig: PqcSignature,
                                h1': Header)
    requires CanMineTwo(cfg, g, who, h1, h2, sig)
    requires h1'.number == 1 && ValidateHeader(cfg, g.difficulty, h1', g.headers[0]) == Ok
    requires cfg.hashHeader(h1') != cfg.hashHeader(Sign(cfg, h1, who, 1, sig))
    ensures var first, second := FirstBlock(cfg, who, who, h1, sig),
                                 [Signed(who, SubmitBlockCall(h2)), Signed(who, ValidateBlockCall(2, sig))];
            && GenesisRun(cfg, g, [first, second, [Signed(who, SubmitBlockCall(h1'))]])
            && Linked(cfg, Run(cfg, g, [first, second]).headers)
            && !Linked(cfg, Run(cfg, g, [first, second, [Signed(who, SubmitBlockCall(h1'))]]).headers)
  {
    hide Sum, RunBlock, Sign, Linked, VerifyPow;
    var first, second := FirstBlock(cfg, who, who, h1, sig),
                         [Signed(who, SubmitBlockCall(h2)), Signed(who, ValidateBlockCall(2, sig))];
    var third := [Signed(who, SubmitBlockCall(h1'))];
    SecondBlock(cfg, g, who, h1, h2, sig, 2, sig);
    TwoBlocks(cfg, g, first, second);
    assert [first, second, third][..2] == [first, second];
    var s := Run(cfg, g, [first, second]);
    SubmissionAlone(cfg, s, who, h1');
    SignTwice(cfg, h1, who, 1, sig, sig);
    SignTwice(cfg, h2, who, 2, sig, sig);
    assert s.headers == g.headers[1 := Sign(cfg, h1, who, 1, sig)][2 := Sign(cfg, h2, who, 2, sig)];
    LinkLost(cfg, g.headers, Sign(cfg, h1, who, 1, sig), h1', Sign(cfg, h2, who, 2, sig));
  }

  lemma SubmissionAlone(cfg: Config, s: State, who: AccountId, h: Header)
    requires (s.now + 1) % 10 != 0 && s.phase == PowMining && h.number == 1 && 0 in s.headers
    requires ValidateHeader(cfg, s.difficulty, h, s.headers[0]) == Ok
    ensures RunBlock(cfg, s, [Signed(who, SubmitBlockCall(h))]).headers == s.headers[1 := h]
  {
    hide Initialize, PushProducer, ValidateHeader;
    QuietInitialize(cfg, s);
    OneCall(cfg, s.(now := s.now + 1), Signed(who, SubmitBlockCall(h)));
  }

  /** A second signature replaces the first. */
  lemma SignTwice(cfg: Config, h: Header, v: AccountId, number: u32, sig: PqcSignature, sig': PqcSignature)
    ensures Sign(cfg, Sign(cfg, h, v, number, sig), v, number, sig') == Sign(cfg, h, v, number, sig')
    ensures Sign(cfg, h, v, number, sig).parentHash == h.parentHash
  {}

  lemma LinkLost(cfg: Config, headers: map<u32, Header>, h1: Header, h1': Header, h2: Header)
    requires headers.Keys == {0} && h1.parentHash == cfg.hashHeader(headers[0])
    requires h2.parentHash == cfg.hashHeader(h1) != cfg.hashHeader(h1')
    ensures Linked(cfg, headers[1 := h1][2 := h2]) && !Linked(cfg, headers[1 := h1][2 := h2][1 := h1'])
  {
    var changed := headers[1 := h1][2 := h2][1 := h1'];
    var two: u32 := 2;
    assert two in changed && changed[two].parentHash != cfg.hashHeader(changed[two - 1]);
  }

  // ----- Such a chain exists

  /** A chain, two headers, a second signature and a second block 1 that meet all the conditions above. */
  lemma SomeChainLosesLinks()
    returns (cfg: Config, g: State, who: AccountId, h1: Header, h2: Header, sig: PqcSignature, sig': PqcSignature,
             h1': Header)
    ensures CanMineTwo(cfg, g, who, h1, h2, sig)
    ensures cfg.hashHeader(Sign(cfg, h1, who, 1, sig')) != cfg.hashHeader(Sign(cfg, h1, who, 1, sig))
    ensures h1'.number == 1 && ValidateHeader(cfg, g.difficulty, h1', g.headers[0]) == Ok
    ensures cfg.hashHeader(h1') != cfg.hashHeader(Sign(cfg, h1, who, 1, sig))
  {
    who, sig, sig' := 1, [], [0];
    cfg := Config(0, 1, 100, 50, 50, 1, false, 0, 1, Blake(_ => 0, _ => 0),
                  (h: Header) => if h.pqcSignature == Some([]) then 1 else 0, (_, _) => 0, (_, _) => 0,
                  (_, _, _) => true, s => AnyOrder(s));
    var h0 := Header(0, 0, 0, 0, 0, 1, None, None);
    h1 := Header(1, 0, 0, 0, 0, 1, None, None);
    h1' := Header(1, 0, 0, 0, 7, 1, None, None);
    h2 := Header(2, 1, 0, 0, 0, 1, None, None);
    OneEntry(who, 10);
    g := State(1, PowMining, map[0 := h0], map[], map[], map[], {}, {}, [], map[], [], 0,
               Ledger(map[who := 10], 10), 0, []);
  }
}
