/**
 * Whole runs of `InitGenesis` followed by `ValidateAndApplyBlock`: the first
 * block seen at each height stays, and the chain is only ever extended.
 */
module FirstSeen {
  import opened Base
  import opened Params
  import opened Tx
  import opened Blocks
  import opened Validation
  import opened Ledger
  import opened Conservation
  import opened Supply
  import opened Difficulty
  import opened Storage
  import opened Node
  import opened Chains
  import opened Refinement
  import opened Reorganise
  import opened ForkChoice
  import opened Headers

  // ---------------------------------------------------------------- required bits

  /** The header lookup of a chain. */
  function HeaderOn(chain: seq<Block>): u64 -> Option<Header> {
    (h: u64) => if h < |chain| then Some(chain[h].header) else None
  }

  /** The bits required of a block on top of `chain`. */
  function RequiredBits(chain: seq<Block>, powLimit: nat): Option<u32>
    requires chain != []
  {
    ExpectedBits(Last(chain).header, powLimit, HeaderOn(chain))
  }

  /** Every block has the bits that the chain below it requires. */
  ghost predicate BitsOk(chain: seq<Block>, powLimit: nat) {
    forall i :: 1 <= i < |chain| ==> RequiredBits(chain[..i], powLimit) == Some(chain[i].header.bits)
  }

  /** The bits required depend on the lookup at one height at most. */
  lemma {:induction false} ExpectedBitsAgree(prev: Header, powLimit: nat, f: u64 -> Option<Header>,
                                             g: u64 -> Option<Header>)
    requires prev.height < U64_MAX
    requires forall h: u64 :: h <= prev.height ==> f(h) == g(h)
    ensures ExpectedBits(prev, powLimit, f) == ExpectedBits(prev, powLimit, g)
  {
    hide CompactToBig, BigToCompact, Retarget;
    var nextHeight := AddU64(prev.height, 1);
    if nextHeight % DIFFICULTY_WINDOW == 0 {
      assert nextHeight >= DIFFICULTY_WINDOW;
      assert f(nextHeight - DIFFICULTY_WINDOW) == g(nextHeight - DIFFICULTY_WINDOW);
    }
  }

  lemma {:induction false} LookupAgrees(st: State, chain: seq<Block>, j: nat, h: u64)
    requires StoreOk(st) && Represents(st, chain) && h <= j < |chain| && Storable(chain[j])
    ensures HeaderAt(st, h) == Some(chain[h].header)
  {
    hide BlockHash, Storable, Replay, UndoLog;
    assert HoldsAt(st, chain, h);
    if h < j {
      InnerReadable(st, chain, h);
    }
  }

  /** The store requires of a child of active block `j` what the chain up to `j` requires. */
  lemma {:induction false} StoreRequires(st: State, chain: seq<Block>, j: nat, powLimit: nat)
    requires StoreOk(st) && Represents(st, chain) && j < |chain| && Storable(chain[j])
    requires chain[j].header.height == j < U64_MAX
    ensures ExpectedBits(chain[j].header, powLimit, HeaderLookup(st)) == RequiredBits(chain[..j + 1], powLimit)
  {
    hide BlockHash, Storable, Represents, ExpectedBits, HeaderAt, StoreOk;
    var below := chain[..j + 1];
    forall h: u64 | h <= j
      ensures HeaderLookup(st)(h) == HeaderOn(below)(h)
    {
      LookupAgrees(st, chain, j, h);
    }
    ExpectedBitsAgree(chain[j].header, powLimit, HeaderLookup(st), HeaderOn(below));
  }

  // ---------------------------------------------------------------- the invariant of a run

  /** Every stored block is on the active chain. */
  ghost predicate OnlyActive(st: State, chain: seq<Block>) {
    forall h :: h in st.blocks ==> exists i :: 0 <= i < |chain| && BlockHash(chain[i]) == h
  }

  ghost predicate NetworkOk(net: Network) {
    0 < CompactToBig(net.genesisBits) == net.powLimit < TWO256
  }

  /** What holds between the submissions of a run. */
  ghost predicate Inv(st: State, chain: seq<Block>, cfg: Config) {
    && StoreOk(st) && Represents(st, chain) && WorkOk(st) && TipHeaviest(st)
    && OnlyActive(st, chain) && BitsOk(chain, cfg.net.powLimit) && ValidChain(chain, cfg.verifier)
  }

  /** A parent named by a block in the store is an active block. */
  lemma {:induction false} ParentIsActive(st: State, chain: seq<Block>, b: Block) returns (j: nat)
    requires StoreOk(st) && Represents(st, chain) && OnlyActive(st, chain)
    requires ParentOk(st, b) && b.header.height > 0
    ensures j < |chain| && b.header.prevHash == BlockHash(chain[j]) && Storable(chain[j])
    ensures b.header.height == j + 1 && chain[j].header.height == j
    ensures st.blocks[b.header.prevHash] == chain[j]
  {
    hide BlockHash, Storable, Replay, UndoLog;
    var i :| 0 <= i < |chain| && BlockHash(chain[i]) == b.header.prevHash;
    assert HoldsAt(st, chain, i);
    j := i;
  }

  /** A block that passes the header checks has the bits the store expects after its parent. */
  lemma {:induction false} AdmissionBits(st: State, b: Block, cfg: Config, now: int)
    requires AdmissionFault(st, b, cfg, now).None? && b.header.height > 0
    ensures b.header.prevHash in st.blocks
    ensures ExpectedBits(st.blocks[b.header.prevHash].header, cfg.net.powLimit, HeaderLookup(st)) == Some(b.header.bits)
  {
    hide BlockHash, Storable, MerkleRoot, ProofOfWork, ExpectedBits, HeaderLookup, HeaderHash;
  }

  /** Children of one active parent need the same bits, at a retarget boundary too. */
  lemma {:induction false} SiblingBits(st: State, chain: seq<Block>, b: Block, cfg: Config, now: int, j: nat)
    requires StoreOk(st) && Represents(st, chain) && BitsOk(chain, cfg.net.powLimit)
    requires AdmissionFault(st, b, cfg, now).None? && b.header.height > 0
    requires j < |chain| - 1 && b.header.prevHash == BlockHash(chain[j])
    ensures b.header.bits == chain[j + 1].header.bits
  {
    hide BlockHash, Storable, Replay, UndoLog, ExpectedBits, RequiredBits, HeaderLookup, StoreOk, AdmissionFault;
    assert HoldsAt(st, chain, j) && HoldsAt(st, chain, j + 1);
    InnerReadable(st, chain, j);
    AdmissionBits(st, b, cfg, now);
    StoreRequires(st, chain, j, cfg.net.powLimit);
    assert RequiredBits(chain[..j + 1], cfg.net.powLimit) == Some(chain[j + 1].header.bits);
  }

  /** So a sibling of an active block can at best tie with it, and never outweighs the tip. */
  lemma {:induction false} SiblingTies(st: State, chain: seq<Block>, b: Block, cfg: Config, now: int, j: nat)
    requires StoreOk(st) && Represents(st, chain) && BitsOk(chain, cfg.net.powLimit) && WorkOk(st) && TipHeaviest(st)
    requires AdmissionFault(st, b, cfg, now).None? && b.header.height > 0
    requires j < |chain| - 1 && b.header.prevHash == BlockHash(chain[j])
    ensures BlockHash(chain[j + 1]) in st.work && IncomingWork(st, b) == st.work[BlockHash(chain[j + 1])]
    ensures IncomingWork(st, b) <= CurrentWork(st)
  {
    hide BlockHash, Storable, Replay, UndoLog, WorkForBits, StoreOk, AdmissionFault, BitsOk;
    SiblingBits(st, chain, b, cfg, now, j);
    assert HoldsAt(st, chain, j) && HoldsAt(st, chain, j + 1);
    assert WorkAt(st, BlockHash(chain[j + 1]));
  }

  // ---------------------------------------------------------------- one submission

  /** The active chain after a submission: extended by the block if it builds on the tip, else the same. */
  ghost function NextChain(st: State, chain: seq<Block>, b: Block, cfg: Config, now: int): seq<Block> {
    if Admissible(st, b, cfg, now) && st.tip == Some(b.header.prevHash) then chain + [b] else chain
  }

  lemma {:induction false} ExtendKeepsBits(st: State, chain: seq<Block>, b: Block, cfg: Config, now: int)
    requires StoreOk(st) && Represents(st, chain) && BitsOk(chain, cfg.net.powLimit)
    requires AdmissionFault(st, b, cfg, now).None? && b.header.height == |chain|
    requires b.header.prevHash == BlockHash(Last(chain)) && Storable(Last(chain))
    ensures BitsOk(chain + [b], cfg.net.powLimit)
  {
    hide BlockHash, Storable, Replay, UndoLog, ExpectedBits, RequiredBits, HeaderLookup, StoreOk, AdmissionFault;
    var next := chain + [b];
    assert HoldsAt(st, chain, |chain| - 1);
    AdmissionBits(st, b, cfg, now);
    StoreRequires(st, chain, |chain| - 1, cfg.net.powLimit);
    forall i | 1 <= i < |next|
      ensures RequiredBits(next[..i], cfg.net.powLimit) == Some(next[i].header.bits)
    {
      assert next[..i] == chain[..i];
      if i == |chain| {
        assert chain[..|chain|] == chain;
      }
    }
  }

  lemma {:induction false} ExtendKeepsActive(st: State, chain: seq<Block>, b: Block, st': State)
    requires OnlyActive(st, chain) && st'.blocks == st.blocks[BlockHash(b) := b]
    ensures OnlyActive(st', chain + [b])
  {
    hide BlockHash;
    var next := chain + [b];
    forall h | h in st'.blocks
      ensures exists i :: 0 <= i < |next| && BlockHash(next[i]) == h
    {
      if h in st.blocks {
        var i :| 0 <= i < |chain| && BlockHash(chain[i]) == h;
        assert BlockHash(next[i]) == h;
      } else {
        assert BlockHash(next[|chain|]) == h;
      }
    }
  }

  /** A block on top of a readable tip has a hash of its own. */
  lemma {:induction false} NewHash(st: State, chain: seq<Block>, b: Block)
    requires StoreOk(st) && Represents(st, chain) && Storable(Last(chain)) && GetBlock(st, BlockHash(b)).None?
    ensures forall i :: 0 <= i < |chain| ==> BlockHash(chain[i]) != BlockHash(b)
  {
    hide BlockHash, Storable, Replay, UndoLog;
    forall i | 0 <= i < |chain|
      ensures BlockHash(chain[i]) != BlockHash(b)
    {
      assert HoldsAt(st, chain, i);
      if i < |chain| - 1 {
        InnerReadable(st, chain, i);
      }
    }
  }

  /**
   * One submission in a run: it never triggers a reorganisation; the block is
   * refused, or extends the active chain, or only gets a work record.
   */
  lemma {:induction false} SubmitKeepsInv(st: State, chain: seq<Block>, b: Block, cfg: Config, now: int)
    requires Inv(st, chain, cfg) && cfg.net.powLimit < TWO256
    requires HashBinds(st, b) && AboveZero(st, b, cfg, now)
    ensures Admissible(st, b, cfg, now) ==> !TriggersReorg(st, b)
    ensures Inv(Submit(st, b, cfg, now).0, NextChain(st, chain, b, cfg, now), cfg)
  {
    hide BlockHash, Storable, BlockAccepted, AdmissionFault, Replay, Reorg, HoldsAt, WorkForBits, RequiredBits;
    if Admissible(st, b, cfg, now) && b.header.height == 0 {
      RecordKeepsInv(st, chain, b, cfg, now);
    } else if Admissible(st, b, cfg, now) {
      AdmissibleParent(st, b, cfg, now);
      var j := ParentIsActive(st, chain, b);
      SubmitKeepsStore(st, b, cfg, now);
      if j < |chain| - 1 {
        SideRecord(st, chain, b, cfg, now, j);
      } else {
        DirectExtension(st, chain, b, cfg, now);
      }
    }
  }

  /** A block that becomes active is above height 0. */
  ghost predicate AboveZero(st: State, b: Block, cfg: Config, now: int) {
    Admissible(st, b, cfg, now) && BecomesActive(st, b) ==> b.header.height >= 1
  }

  /** A block that is only recorded changes nothing that the invariant speaks of. */
  lemma {:induction false} RecordKeepsInv(st: State, chain: seq<Block>, b: Block, cfg: Config, now: int)
    requires Inv(st, chain, cfg) && cfg.net.powLimit < TWO256
    requires HashBinds(st, b) && Admissible(st, b, cfg, now) && !BecomesActive(st, b)
    ensures Inv(Submit(st, b, cfg, now).0, chain, cfg)
  {
    hide Storable, BlockAccepted, BitsOk, ValidChain, ParentOk, Replay, UndoLog, BlockHash, WorkOk, StoreOk,
         HeaderFault, GetBlock, BlockReward, IncomingWork;
    AdmissibleParent(st, b, cfg, now);
    SubmitKeepsStore(st, b, cfg, now);
    TipStored(st, chain);
    SubmitChoosesHeaviest(st, b, cfg, now);
    WorkIsApart(st, chain, BlockHash(b), IncomingWork(st, b));
  }

  lemma {:induction false} SideRecord(st: State, chain: seq<Block>, b: Block, cfg: Config, now: int, j: nat)
    requires Inv(st, chain, cfg) && cfg.net.powLimit < TWO256
    requires b.header.height >= 1 && HashBinds(st, b) && Admissible(st, b, cfg, now)
    requires j < |chain| - 1 && b.header.prevHash == BlockHash(chain[j])
    ensures !BecomesActive(st, b)
    ensures Inv(Submit(st, b, cfg, now).0, chain, cfg)
  {
    hide BitsOk, ValidChain, Replay, UndoLog, BlockHash, WorkOk, StoreOk, AdmissionFault, BlockAccepted, IncomingWork,
         Submit, HoldsAt;
    SiblingTies(st, chain, b, cfg, now, j);
    TipAbove(st, chain, j);
    RecordKeepsInv(st, chain, b, cfg, now);
  }

  lemma {:induction false} TipStored(st: State, chain: seq<Block>)
    requires Represents(st, chain)
    ensures st.tip.Some? && st.tip.value == BlockHash(Last(chain)) && st.tip.value in st.blocks &&
              st.blocks[st.tip.value] == Last(chain)
    ensures Last(chain).header.height == |chain| - 1
  {
    assert HoldsAt(st, chain, |chain| - 1);
  }

  lemma {:induction false} TipAbove(st: State, chain: seq<Block>, j: nat)
    requires Represents(st, chain) && j < |chain| - 1
    ensures st.tip != Some(BlockHash(chain[j]))
  {
    hide BlockHash;
    assert HoldsAt(st, chain, j) && HoldsAt(st, chain, |chain| - 1);
  }

  lemma {:induction false} DirectExtension(st: State, chain: seq<Block>, b: Block, cfg: Config, now: int)
    requires Inv(st, chain, cfg) && cfg.net.powLimit < TWO256
    requires b.header.height == |chain| && HashBinds(st, b) && Admissible(st, b, cfg, now)
    requires b.header.prevHash == BlockHash(Last(chain)) && Storable(Last(chain))
    ensures !TriggersReorg(st, b)
    ensures st.tip == Some(b.header.prevHash)
    ensures Inv(Submit(st, b, cfg, now).0, chain + [b], cfg)
  {
    hide Storable, BlockAccepted, ParentOk, Replay, UndoLog, BlockHash, WorkOk, StoreOk, HeaderFault, BlockReward,
         IncomingWork;
    TipStored(st, chain);
    AdmissibleParent(st, b, cfg, now);
    SubmitKeepsStore(st, b, cfg, now);
    SubmitChoosesHeaviest(st, b, cfg, now);
    NewHash(st, chain, b);
    ExtendRefines(st, chain, b);
    WorkIsApart(ApplyBlock(st, b), chain + [b], BlockHash(b), IncomingWork(st, b));
    ExtendKeepsBits(st, chain, b, cfg, now);
    ExtendKeepsActive(st, chain, b, Submit(st, b, cfg, now).0);
    ExtendValid(chain, b, cfg.verifier);
  }

  lemma {:induction false} ExtendValid(chain: seq<Block>, b: Block, verifier: Verifier)
    requires ValidChain(chain, verifier) && b.header.height == |chain|
    requires BlockAccepted(b, Replay(chain), verifier, b.header.height)
    ensures ValidChain(chain + [b], verifier)
  {
    hide BlockAccepted, Replay;
    assert Init(chain + [b]) == chain && Last(chain + [b]) == b;
  }

  // ---------------------------------------------------------------- runs

  /** A submitted block and the clock reading at that moment. */
  datatype Submission = Submission(block: Block, now: int)

  /** The store after a sequence of submissions. */
  ghost function Run(st: State, subs: seq<Submission>, cfg: Config): State
    requires StoreOk(st)
    decreases |subs|
  {
    if subs == [] then st
    else
      SubmitKeepsStore(st, subs[0].block, cfg, subs[0].now);
      Run(Submit(st, subs[0].block, cfg, subs[0].now).0, subs[1..], cfg)
  }

  /** Header hashes tell the given headers apart. */
  ghost predicate HeadersDistinguish(headers: set<Header>) {
    forall h, h' :: h in headers && h' in headers && HeaderHash(h) == HeaderHash(h') ==> h == h'
  }

  ghost predicate StoredWithin(st: State, headers: set<Header>) {
    forall h :: h in st.blocks ==> st.blocks[h].header in headers
  }

  /** The headers of all submissions are among the given ones, and no block of height 0 becomes active. */
  ghost predicate Admits(st: State, subs: seq<Submission>, cfg: Config, headers: set<Header>)
    requires StoreOk(st)
    decreases |subs|
  {
    subs != [] ==>
      var b, now := subs[0].block, subs[0].now;
      SubmitKeepsStore(st, b, cfg, now);
      && b.header in headers && AboveZero(st, b, cfg, now)
      && Admits(Submit(st, b, cfg, now).0, subs[1..], cfg, headers)
  }

  lemma {:induction false} BindsAll(st: State, b: Block, headers: set<Header>)
    requires StoreOk(st) && StoredWithin(st, headers) && b.header in headers && HeadersDistinguish(headers)
    ensures HashBinds(st, b)
  {
    hide HeaderHash, Storable;
  }

  lemma {:induction false} SubmitStoresWithin(st: State, chain: seq<Block>, b: Block, cfg: Config, now: int,
                                              headers: set<Header>)
    requires StoreOk(st) && StoredWithin(st, headers) && b.header in headers
    requires Admissible(st, b, cfg, now) ==> !TriggersReorg(st, b)
    ensures StoredWithin(Submit(st, b, cfg, now).0, headers)
  {
    hide BlockHash, Storable, BlockAccepted, AdmissionFault, StoreOk, ApplyUtxos, UndoLog;
    if Admissible(st, b, cfg, now) {
      AdmissibleParent(st, b, cfg, now);
    }
  }

  /** The invariant holds after every run, and the chain only grows at its end. */
  lemma {:induction false} RunKeepsInv(st: State, chain: seq<Block>, subs: seq<Submission>, cfg: Config,
                                       headers: set<Header>)
    returns (chain': seq<Block>)
    requires Inv(st, chain, cfg) && cfg.net.powLimit < TWO256
    requires StoredWithin(st, headers) && Admits(st, subs, cfg, headers) && HeadersDistinguish(headers)
    ensures Inv(Run(st, subs, cfg), chain', cfg) && chain <= chain'
    decreases |subs|
  {
    hide Submit, HeadersDistinguish, HashBinds, StoredWithin, Inv, StoreOk, Admissible, TriggersReorg, AboveZero;
    InvStore(st, chain, cfg);
    if subs == [] {
      chain' := chain;
    } else {
      var b, now := subs[0].block, subs[0].now;
      BindsAll(st, b, headers);
      SubmitKeepsInv(st, chain, b, cfg, now);
      SubmitStoresWithin(st, chain, b, cfg, now, headers);
      chain' := RunKeepsInv(Submit(st, b, cfg, now).0, NextChain(st, chain, b, cfg, now), subs[1..], cfg, headers);
    }
  }

  lemma {:induction false} InvStore(st: State, chain: seq<Block>, cfg: Config)
    requires Inv(st, chain, cfg)
    ensures StoreOk(st)
  {
  }

  lemma {:induction false} GenesisStore(g: Block)
    requires GenesisLike(g)
    ensures StoreOk(Initialized(g))
  {
    hide BlockHash, IsCoinbase, Pays, WorkForBits;
  }

  /** The state that `InitGenesis` leaves satisfies the invariant. */
  lemma {:induction false} GenesisInv(g: Block, cfg: Config)
    requires NetworkOk(cfg.net) && GenesisLike(g) && g.header.bits == cfg.net.genesisBits
    ensures Inv(Initialized(g), [g], cfg)
  {
    hide BlockHash, CompactToBig, WorkForBits, IsCoinbase, Pays, UndoTxs;
    var st, chain := Initialized(g), [g];
    WorkIsPositive(g.header.bits);
    assert chain[..0] == [] && Init(chain) == [] && Last(chain) == g;
    assert Replay([]) == map[];
    assert HoldsAt(st, chain, 0);
    assert WorkAt(st, BlockHash(g));
    assert BlockHash(chain[0]) == BlockHash(g);
  }

  /** Whatever is submitted, everything a run stores is mined. */
  lemma {:induction false} RunKeepsMined(st: State, subs: seq<Submission>, cfg: Config, g: Block)
    requires StoreOk(st) && AllMined(st, g, cfg.net.powLimit)
    ensures AllMined(Run(st, subs, cfg), g, cfg.net.powLimit)
    decreases |subs|
  {
    hide Submit, StoreOk, AllMined;
    if subs != [] {
      var b, now := subs[0].block, subs[0].now;
      SubmitKeepsStore(st, b, cfg, now);
      SubmitKeepsMined(st, b, cfg, now, g);
      RunKeepsMined(Submit(st, b, cfg, now).0, subs[1..], cfg, g);
    }
  }

  /**
   * First-seen stability and supply safety over whole runs. After `InitGenesis`
   * and any sequence of submissions of which none of height 0 becomes active, the store represents a
   * valid chain that starts with the genesis block and has the required bits
   * throughout; every stored block is on it and, but for the genesis block, mined under
   * the limit; the tip has the most recorded work; and all coins together are worth at most
   * the rewards paid so far, which is below the supply cap.
   */
  lemma {:induction false} RunIsSafe(g: Block, subs: seq<Submission>, cfg: Config,
                                     headers: set<Header>) returns (chain: seq<Block>)
    requires NetworkOk(cfg.net) && GenesisLike(g) && g.header.bits == cfg.net.genesisBits
    requires g.header in headers && HeadersDistinguish(headers)
    requires (GenesisStore(g); Admits(Initialized(g), subs, cfg, headers))
    ensures StoreOk(Initialized(g))
    ensures var st := Run(Initialized(g), subs, cfg);
            && chain != [] && chain[0] == g
            && Represents(st, chain) && ValidChain(chain, cfg.verifier)
            && BitsOk(chain, cfg.net.powLimit) && AllMined(st, g, cfg.net.powLimit)
            && OnlyActive(st, chain) && WorkOk(st) && TipHeaviest(st)
            && Total(st.utxo) <= RewardSum(|chain|) <= 2 * INITIAL_REWARD * HALVING_INTERVAL < MAX_SUPPLY
  {
    hide HeadersDistinguish, GenesisLike, HeaderHash, WorkForBits, Replay, HoldsAt, Total, RewardSum, ApplyUtxos,
         CompactToBig, AllMined;
    GenesisInv(g, cfg);
    chain := RunKeepsInv(Initialized(g), [g], subs, cfg, headers);
    GenesisMined(g, cfg.net.powLimit);
    RunKeepsMined(Initialized(g), subs, cfg, g);
    assert chain[0] == [g][0];
    SupplyCap(chain, cfg.verifier);
  }

  // ---------------------------------------------------------------- blocks of height 0

  /**
   * Without a parent there is no check of height and difficulty: a block of height 0
   * on the tip is accepted, keeps the height at 0, and changes the total by its
   * coinbase outputs less its fees.
   */
  lemma {:induction false} ZeroHeightMints(st: State, b: Block, cfg: Config, now: int)
    requires StoreOk(st) && Admissible(st, b, cfg, now) && b.header.height == 0 && st.tip == Some(b.header.prevHash)
    requires FreshOutputs(st.utxo, b.txs)
    ensures Submit(st, b, cfg, now).1 && Submit(st, b, cfg, now).0.tip == Some(BlockHash(b))
    ensures |b.txs| > 0
    ensures Total(Submit(st, b, cfg, now).0.utxo) == Total(st.utxo) + Pays(b.txs[0]) - Fees(b, st.utxo)
  {
    hide BlockHash, AdmissionFault, BlockAccepted, FreshOutputs, Total, Fees, Pays, UndoLog, Reorg, StoreOk;
    AdmissibleParent(st, b, cfg, now);
    AcceptedShape(b, st.utxo, cfg.verifier, b.header.height);
    BlockBalance(st.utxo, b, cfg.verifier, b.header.height);
  }

  /** Every submission is such a block, and claims the first reward and all fees. */
  ghost predicate MintsEach(st: State, subs: seq<Submission>, cfg: Config)
    requires StoreOk(st)
    decreases |subs|
  {
    subs != [] ==>
      var b, now := subs[0].block, subs[0].now;
      SubmitKeepsStore(st, b, cfg, now);
      && Admissible(st, b, cfg, now) && b.header.height == 0 && st.tip == Some(b.header.prevHash)
      && FreshOutputs(st.utxo, b.txs) && |b.txs| > 0 && Pays(b.txs[0]) == INITIAL_REWARD + Fees(b, st.utxo)
      && MintsEach(Submit(st, b, cfg, now).0, subs[1..], cfg)
  }

  /** Repeated often enough, such blocks break the supply cap. */
  lemma {:induction false} ZeroHeightBreaksCap(st: State, subs: seq<Submission>, cfg: Config)
    requires StoreOk(st) && MintsEach(st, subs, cfg)
    ensures Total(Run(st, subs, cfg).utxo) == Total(st.utxo) + |subs| * INITIAL_REWARD
    ensures |subs| > 42_000_000 ==> Total(Run(st, subs, cfg).utxo) > MAX_SUPPLY
    decreases |subs|
  {
    hide Submit, Admissible, FreshOutputs, Total, Fees, Pays, StoreOk;
    if subs != [] {
      var b, now := subs[0].block, subs[0].now;
      SubmitKeepsStore(st, b, cfg, now);
      ZeroHeightMints(st, b, cfg, now);
      ZeroHeightBreaksCap(Submit(st, b, cfg, now).0, subs[1..], cfg);
      assert |subs| * INITIAL_REWARD == |subs[1..]| * INITIAL_REWARD + INITIAL_REWARD;
    }
  }
}
