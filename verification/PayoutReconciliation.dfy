/** How the portal keeps the node's mining payout address in order (app/server.py, app/mining_wallet.py):
    one run of _ensure_node_mining_payout, under arbitrary failures of RPC, file and helper. */
module PayoutReconciliation {

  type Address = string

  /** The payout file and the saved configuration ("" for none), and what no code can see directly:
      which addresses the two wallets own. The field minted counts the addresses generated. */
  datatype Node = Node(file: Address, cfg: Address, source: string, spend: set<Address>, legacy: set<Address>, minted: nat)

  /** A wallet query answers, or fails with a RuntimeError, or with any other exception. */
  datatype Query = Answers | Fails | Raises

  /** What _apply_mining_payout_address runs into. The helper may have written the file and yet report
      failure, for example by a timeout. */
  datatype ApplyOutcome = Invalid | ActionsDisabled | HelperMissing | HelperFails(wrote: bool) | Applied

  /** Everything outside of the code's control in one run. */
  datatype Env = Env(readFails: bool, fileInSpend: Query, fileInLegacy: Query, cfgInSpend: Query, cfgInLegacy: Query,
                     mint: Query, newAddress: Address, apply: ApplyOutcome)

  datatype Kind = Empty | Spend | Legacy | Custom | Unknown

  /** address_is_spend_mine and address_is_legacy_mining_mine turn a RuntimeError into "not mine"; the
      nested _classify turns other exceptions into "unknown". */
  function Classify(n: Node, a: Address, inSpend: Query, inLegacy: Query): Kind {
    if a == "" then Empty
    else if inSpend.Raises? then Unknown
    else if inSpend.Answers? && a in n.spend then Spend
    else if inLegacy.Raises? then Unknown
    else if inLegacy.Answers? && a in n.legacy then Legacy
    else Custom
  }

  predicate Saves(o: ApplyOutcome) {
    o.ActionsDisabled? || o.Applied?
  }

  predicate Writes(o: ApplyOutcome) {
    o.Applied? || (o.HelperFails? && o.wrote)
  }

  /** _apply_mining_payout_address for an address that is not empty. */
  function Apply(n: Node, a: Address, source: string, o: ApplyOutcome): Node {
    n.(file := if Writes(o) then a else n.file,
       cfg := if Saves(o) then a else n.cfg,
       source := if Saves(o) then source else n.source)
  }

  /** What the run decides to do. */
  datatype Action = Leave | Push(a: Address, source: string) | Mint

  function FileSeen(n: Node, e: Env): Address {
    if e.readFails then "" else n.file
  }

  function FileKind(n: Node, e: Env): Kind {
    Classify(n, FileSeen(n, e), e.fileInSpend, e.fileInLegacy)
  }

  function CfgKind(n: Node, e: Env): Kind {
    Classify(n, n.cfg, e.cfgInSpend, e.cfgInLegacy)
  }

  /** Lines 977 to 1012. What is left for the last test is always a case for a new address. */
  function Decide(n: Node, e: Env): Action {
    var fileKind, cfgKind := FileKind(n, e), CfgKind(n, e);
    if fileKind.Spend? || fileKind.Custom? || fileKind.Unknown? then Leave
    else if cfgKind.Custom? then Push(n.cfg, "custom")
    else if cfgKind.Unknown? then Leave
    else if cfgKind.Spend? then if FileSeen(n, e) == n.cfg then Leave else Push(n.cfg, "node")
    else Mint
  }

  /** One run of _ensure_node_mining_payout. */
  function Tick(n: Node, e: Env): Node {
    match Decide(n, e)
    case Leave => n
    case Push(a, source) => Apply(n, a, source, e.apply)
    case Mint =>
      if !e.mint.Answers? then n else
      var minted := n.(spend := n.spend + {e.newAddress}, minted := n.minted + 1, cfg := e.newAddress, source := "node");
      Apply(minted, e.newAddress, "node", e.apply)
  }

  /** The wallet makes a new address. */
  ghost predicate FreshAddress(n: Node, e: Env) {
    && e.newAddress != "" && e.newAddress !in n.spend && e.newAddress !in n.legacy
    && e.newAddress != n.file && e.newAddress != n.cfg
  }

  /** An address that neither wallet owns. */
  ghost predicate Foreign(n: Node, a: Address) {
    a != "" && a !in n.spend && a !in n.legacy
  }

  // ---------------------------------------------------------------- the code

  class Portal {
    var file: Address      // MINING_PAYOUT_PATH
    var cfg: Address       // cfg["mining_payout_address"], saved
    var source: string     // cfg["mining_payout_source"], saved
    ghost var spend: set<Address>
    ghost var legacy: set<Address>
    ghost var minted: nat

    ghost function View(): Node
      reads this
    {
      Node(file, cfg, source, spend, legacy, minted)
    }

    constructor (f: Address, c: Address, s: string, ghost sp: set<Address>, ghost lg: set<Address>)
      ensures View() == Node(f, c, s, sp, lg, 0)
    {
      file, cfg, source, spend, legacy, minted := f, c, s, sp, lg, 0;
    }

    /** Persist an address, with the helper or in the configuration only; false for an error response. */
    method ApplyMiningPayoutAddress(a: Address, s: string, o: ApplyOutcome) returns (ok: bool)
      modifies this`file, this`cfg, this`source
      ensures View() == Apply(old(View()), a, s, o) && ok == Saves(o)
    {
      match o
      case Invalid => return false;
      case ActionsDisabled =>
        cfg, source := a, s;
        return true;
      case HelperMissing => return false;
      case HelperFails(wrote) =>
        if wrote {
          file := a;
        }
        return false;
      case Applied =>
        file := a;
        cfg, source := a, s;
        return true;
    }

    /** The nested _classify; mine are the answers the wallets would give. */
    method ClassifyAddress(a: Address, inSpend: Query, spendMine: bool, inLegacy: Query, legacyMine: bool) returns (k: Kind)
      requires spendMine == (a in spend) && legacyMine == (a in legacy)
      ensures k == Classify(View(), a, inSpend, inLegacy)
    {
      if a == "" {
        return Empty;
      }
      if inSpend.Raises? {
        return Unknown;
      }
      if inSpend.Answers? && spendMine {
        return Spend;
      }
      if inLegacy.Raises? {
        return Unknown;
      }
      if inLegacy.Answers? && legacyMine {
        return Legacy;
      }
      k := Custom;
    }

    /** _ensure_node_mining_payout, given the kinds of the two addresses. Returns the address it reports. */
    method EnsureNodeMiningPayout(e: Env, fileKind: Kind, cfgKind: Kind) returns (reported: Address)
      requires fileKind == FileKind(View(), e) && cfgKind == CfgKind(View(), e)
      modifies this
      ensures View() == Tick(old(View()), e)
      ensures Decide(old(View()), e).Push? ==> reported == Decide(old(View()), e).a
      ensures Decide(old(View()), e).Mint? && e.mint.Answers? ==> reported == e.newAddress
      ensures Decide(old(View()), e).Leave? || (Decide(old(View()), e).Mint? && !e.mint.Answers?)
              ==> reported == if !e.readFails && old(file) != "" then old(file) else old(cfg)
    {
      var fileAddr := if e.readFails then "" else file;
      var cfgAddr := cfg;
      if fileKind.Spend? || fileKind.Custom? {
        return fileAddr;
      }
      if fileKind.Unknown? {
        return if fileAddr != "" then fileAddr else cfgAddr;
      }
      if cfgKind.Custom? {
        var ok := ApplyMiningPayoutAddress(cfgAddr, "custom", e.apply);
        return cfgAddr;
      }
      if cfgKind.Unknown? {
        return if fileAddr != "" then fileAddr else cfgAddr;
      }
      if cfgKind.Spend? {
        if fileAddr == cfgAddr {
          return cfgAddr;
        }
        var ok := ApplyMiningPayoutAddress(cfgAddr, "node", e.apply);
        return cfgAddr;
      }
      if !e.mint.Answers? {
        return if fileAddr != "" then fileAddr else cfgAddr;
      }
      spend := spend + {e.newAddress};
      minted := minted + 1;
      cfg, source := e.newAddress, "node";
      var ok := ApplyMiningPayoutAddress(e.newAddress, "node", e.apply);
      return e.newAddress;
    }
  }

  // ---------------------------------------------------------------- one run

  /** The configured address changes only by generating one, and that only where none or a legacy one was
      seen: one that neither wallet owns stays. */
  lemma {:induction false} ConfigKept(n: Node, e: Env)
    ensures Tick(n, e).cfg != n.cfg ==> Decide(n, e).Mint? && (n.cfg == "" || n.cfg in n.legacy)
    ensures Foreign(n, n.cfg) ==> Tick(n, e).cfg == n.cfg
  {
  }

  /** A foreign address in the file is replaced by a generated one exactly when the file could not be read,
      no address is configured or a legacy one, the wallet answers and the helper writes. */
  lemma {:induction false} ForeignFileLostToGeneratedIff(n: Node, e: Env)
    requires Foreign(n, n.file) && FreshAddress(n, e)
    ensures Tick(n, e).file == e.newAddress
       <==> e.readFails && Writes(e.apply) && (CfgKind(n, e).Empty? || CfgKind(n, e).Legacy?) && e.mint.Answers?
  {
  }

  /** It is replaced by anything exactly when the file could not be read, the helper writes, and either that
      happens or another address is configured that is custom or the spend wallet's; then the configured
      one takes its place. */
  lemma {:induction false} ForeignFileReplacedIff(n: Node, e: Env)
    requires Foreign(n, n.file) && FreshAddress(n, e)
    ensures Tick(n, e).file != n.file
       <==> e.readFails && Writes(e.apply)
            && match CfgKind(n, e)
               case Custom | Spend => n.cfg != n.file
               case Empty | Legacy => e.mint.Answers?
               case Unknown => false
    ensures Tick(n, e).file == n.file || Tick(n, e).file == e.newAddress || Tick(n, e).file == n.cfg
  {
  }

  /** Its place is taken by an address of the spend wallet, new or old, exactly when the file could not be
      read, the helper writes, and the configured address is the spend wallet's own (not recognised as
      such if the query failed), or none or a legacy one with a wallet that answers. */
  lemma {:induction false} ForeignFileLostToWalletIff(n: Node, e: Env)
    requires Foreign(n, n.file) && FreshAddress(n, e)
    ensures Tick(n, e).file != n.file && Tick(n, e).file in Tick(n, e).spend
       <==> e.readFails && Writes(e.apply)
            && match CfgKind(n, e)
               case Custom | Spend => n.cfg in n.spend
               case Empty | Legacy => e.mint.Answers?
               case Unknown => false
  {
  }

  /** It can be lost to a generated address: the file exists but cannot be read, nothing is configured. */
  lemma {:induction false} ForeignFileCanBeLost()
    ensures exists n: Node, e: Env ::
              && Foreign(n, n.file) && FreshAddress(n, e)
              && Tick(n, e).file != n.file && Tick(n, e).file in Tick(n, e).spend
  {
    var n := Node("bc1-user", "", "", {}, {}, 0);
    var e := Env(true, Answers, Answers, Answers, Answers, Answers, "bc1-new", Applied);
    assert Decide(n, e) == Mint;
    assert Tick(n, e).file == "bc1-new" && "bc1-new" in Tick(n, e).spend;
  }

  /** What remains of an attempt to apply an address, with any outcome: the configuration has it only if the
      attempt is reported as a success, the file if the helper wrote it. */
  lemma {:induction false} AppliedWhere(n: Node, a: Address, source: string, o: ApplyOutcome)
    ensures o == Applied ==> Apply(n, a, source, o) == n.(file := a, cfg := a, source := source)
    ensures o == ActionsDisabled ==> Apply(n, a, source, o) == n.(cfg := a, source := source)
    ensures o == HelperFails(true) ==> Apply(n, a, source, o) == n.(file := a)
    ensures o == HelperFails(false) || o == Invalid || o == HelperMissing ==> Apply(n, a, source, o) == n
  {
  }

  /** What an address is taken for when both wallets answer: what it is. */
  lemma {:induction false} KindsMean(n: Node, a: Address)
    ensures Classify(n, a, Answers, Answers) == if a == "" then Empty
                                                else if a in n.spend then Spend
                                                else if a in n.legacy then Legacy
                                                else Custom
    ensures Classify(n, a, Answers, Answers) == Custom <==> Foreign(n, a)
  {
  }

  /** What it is taken for when a query does not answer: it is unknown exactly if the answer would be needed
      and was not an RPC error, and custom only if no wallet that answered owns it. */
  lemma {:induction false} KindsWithoutAnswers(n: Node, a: Address, inSpend: Query, inLegacy: Query)
    requires a != ""
    ensures Classify(n, a, inSpend, inLegacy) == Unknown
       <==> inSpend == Raises || (inLegacy == Raises && !(inSpend == Answers && a in n.spend))
    ensures Classify(n, a, inSpend, inLegacy) == Custom
       <==> && inSpend != Raises && inLegacy != Raises
            && (inSpend == Answers ==> a !in n.spend) && (inLegacy == Answers ==> a !in n.legacy)
    ensures Classify(n, a, inSpend, inLegacy) == Spend <==> inSpend == Answers && a in n.spend
    ensures Classify(n, a, inSpend, inLegacy) != Empty
  {
  }

  /** The source recorded with an address says where it comes from: "node" for one of the spend wallet,
      "custom" for one already configured that no wallet that answered owns. */
  lemma {:induction false} SourceSays(n: Node, e: Env)
    ensures Tick(n, e).source == n.source || Tick(n, e).source == "node" || Tick(n, e).source == "custom"
    ensures Tick(n, e).cfg != n.cfg ==> Tick(n, e).source == "node"
    ensures Tick(n, e).source != n.source && Tick(n, e).source == "node" ==> Tick(n, e).cfg in Tick(n, e).spend
    ensures Tick(n, e).source != n.source && Tick(n, e).source == "custom"
            ==> Tick(n, e).cfg == n.cfg && CfgKind(n, e).Custom? && Saves(e.apply)
  {
  }

  /** Where the file holds no usable address and the result is saved, the source is always recorded. */
  lemma {:induction false} SourceRecorded(n: Node, e: Env)
    requires FileKind(n, e).Empty? || FileKind(n, e).Legacy?
    requires Saves(e.apply)
    ensures CfgKind(n, e).Custom? ==> Tick(n, e).source == "custom"
    ensures CfgKind(n, e).Spend? && n.cfg != FileSeen(n, e) ==> Tick(n, e).source == "node"
    ensures (CfgKind(n, e).Empty? || CfgKind(n, e).Legacy?) && e.mint.Answers? ==> Tick(n, e).source == "node"
  {
  }

  /** A query that raises anything but a RuntimeError about the file's address stops the run. */
  lemma {:induction false} UnknownDoesNothing(n: Node, e: Env)
    requires FileKind(n, e).Unknown?
    ensures Tick(n, e) == n
  {
  }

  /** A run that meets no failure leaves the file with an address of the spend wallet or a foreign one, and
      the next such run changes nothing. */
  ghost predicate AllWell(e: Env) {
    && !e.readFails && e.fileInSpend.Answers? && e.fileInLegacy.Answers? && e.cfgInSpend.Answers? && e.cfgInLegacy.Answers?
    && e.mint.Answers? && e.apply.Applied?
  }

  lemma {:induction false} OneGoodRunSettles(n: Node, e: Env, again: Env)
    requires AllWell(e) && AllWell(again) && FreshAddress(n, e)
    ensures var m := Tick(n, e);
            && m.file != "" && (m.file in m.spend || Foreign(m, m.file))
            && Tick(m, again) == m
  {
  }

  // ---------------------------------------------------------------- any number of runs

  datatype Step = Auto(e: Env) | User(file: Address, cfg: Address, source: string)

  /** A user action sets the address through the portal, in ways not looked at here. */
  function After(n: Node, s: Step): Node {
    match s
    case Auto(e) => Tick(n, e)
    case User(f, c, source) => n.(file := f, cfg := c, source := source)
  }

  ghost predicate IsRun(nodes: seq<Node>, steps: seq<Step>) {
    |nodes| == |steps| + 1 && forall i :: 0 <= i < |steps| ==> Follows(nodes[i], steps[i], nodes[i + 1])
  }

  ghost predicate Follows(n: Node, s: Step, m: Node) {
    m == After(n, s) && (s.Auto? ==> FreshAddress(n, s.e))
  }

  /** An address of the spend wallet is configured. */
  ghost predicate SpendConfigured(n: Node) {
    n.cfg != "" && n.cfg in n.spend && n.cfg !in n.legacy
  }

  /** Such an address stays, and nothing is generated. */
  lemma {:induction false} SpendConfigStays(n: Node, e: Env)
    requires SpendConfigured(n)
    ensures SpendConfigured(Tick(n, e)) && Tick(n, e).minted == n.minted
  {
  }

  /** A run generates at most one address, and then configures it. */
  lemma {:induction false} TickMints(n: Node, e: Env)
    requires FreshAddress(n, e)
    ensures Tick(n, e).minted == n.minted || (Tick(n, e).minted == n.minted + 1 && SpendConfigured(Tick(n, e)))
  {
  }

  /** However many automatic runs there are, with whatever failures, at most one address is generated
      from one user action to the next. */
  lemma {:induction false} AtMostOneMint(nodes: seq<Node>, steps: seq<Step>, i: nat, j: nat)
    requires IsRun(nodes, steps) && i <= j < |nodes|
    requires forall k :: i <= k < j ==> steps[k].Auto?
    ensures nodes[i].minted <= nodes[j].minted <= nodes[i].minted + 1
    ensures nodes[j].minted > nodes[i].minted ==> SpendConfigured(nodes[j])
  {
    if i < j {
      AtMostOneMint(nodes, steps, i, j - 1);
      var n, e := AutoStep(nodes, steps, j - 1);
      TickMints(n, e);
      if n.minted > nodes[i].minted {
        SpendConfigStays(n, e);
      }
    }
  }

  lemma AutoStep(nodes: seq<Node>, steps: seq<Step>, k: nat) returns (n: Node, e: Env)
    requires IsRun(nodes, steps) && k < |steps| && steps[k].Auto?
    ensures n == nodes[k] && e == steps[k].e && FreshAddress(n, e) && nodes[k + 1] == Tick(n, e)
  {
    n, e := nodes[k], steps[k].e;
    assert Follows(n, steps[k], nodes[k + 1]);
  }

  lemma {:induction false} ForeignConfigKept(n: Node, e: Env)
    requires Foreign(n, n.cfg) && FreshAddress(n, e)
    ensures Tick(n, e).cfg == n.cfg && Foreign(Tick(n, e), n.cfg)
  {
  }

  lemma {:induction false} ForeignFileKept(n: Node, e: Env)
    requires Foreign(n, n.file) && FreshAddress(n, e) && !e.readFails
    ensures Tick(n, e).file == n.file && Foreign(Tick(n, e), n.file)
  {
    ForeignFileReplacedIff(n, e);
  }

  /** And a configured address that neither wallet owns is there until the user changes it; so is one in
      the file, if the file can be read each time. */
  lemma {:induction false} ForeignAddressesStay(nodes: seq<Node>, steps: seq<Step>, i: nat, j: nat)
    requires IsRun(nodes, steps) && i <= j < |nodes|
    requires forall k :: i <= k < j ==> steps[k].Auto?
    ensures Foreign(nodes[i], nodes[i].cfg) ==> nodes[j].cfg == nodes[i].cfg && Foreign(nodes[j], nodes[j].cfg)
    ensures Foreign(nodes[i], nodes[i].file) && (forall k :: i <= k < j ==> !steps[k].e.readFails)
            ==> nodes[j].file == nodes[i].file && Foreign(nodes[j], nodes[j].file)
  {
    if i < j {
      ForeignAddressesStay(nodes, steps, i, j - 1);
      var n, e := AutoStep(nodes, steps, j - 1);
      if Foreign(n, n.cfg) {
        ForeignConfigKept(n, e);
      }
      if Foreign(n, n.file) && !e.readFails {
        ForeignFileKept(n, e);
      }
    }
  }
}
