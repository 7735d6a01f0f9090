/**
 * The chain monitor (stacking/monitor.ts): every poll it compares a fresh observation of the
 * node with the heights and cycle it saw last, decides which lines to show, remembers the new
 * values, and checks whether Epoch 3.0 is being entered without reward slots.
 */
module ChainMonitor {
  import opened Wrappers
  import opened Common

  const CONTRACT_CALL: string := "contract_call"

  /** A transaction of the latest block, as the blockchain API lists it. */
  datatype Transaction = Transaction(
    txType: string,
    senderAddress: string,
    txStatus: string,
    functionName: string)   // the called function, for a `contract_call`

  /** The latest STX block. */
  datatype Block = Block(height: nat, txCount: nat)

  /** What `getInfo` gathers in one poll. */
  datatype ChainInfo = ChainInfo(poxInfo: PoxInfo, block: Block, nextCycleId: nat, txs: seq<Transaction>)

  /** What one poll shows. */
  datatype Report = Report(
    showBurnMsg: bool,
    showPrepareMsg: bool,
    showCycleMsg: bool,
    showStxBlockMsg: bool,
    startingNakamoto: bool,         // "Starting Nakamoto!"
    nakamotoBlock: bool,            // the "Nakamoto block" line
    listedTxs: seq<Transaction>,    // the contract calls printed one per line
    fatal: bool,                    // "FATAL: no signers while going in to Epoch 3.0"
    exiting: bool)                  // the monitor ends the process

  /** The monitor's memory between polls; times are milliseconds. */
  datatype MonitorState = MonitorState(
    lastBurnHeight: nat,
    lastStxHeight: nat,
    lastRewardCycle: nat,
    lastStxBlockTime: int,
    lastStxBlockDiff: int)

  /** `getTransactions`: the contract calls of the block, in block order. */
  function GetTransactions(txs: seq<Transaction>): (calls: seq<Transaction>)
    ensures |calls| <= |txs|
    ensures forall k :: 0 <= k < |calls| ==> calls[k].txType == CONTRACT_CALL && calls[k] in txs
    ensures forall tx :: tx in txs && tx.txType == CONTRACT_CALL ==> tx in calls
  {
    if txs == [] then []
    else (if txs[0].txType == CONTRACT_CALL then [txs[0]] else []) + GetTransactions(txs[1..])
  }

  /** The filter keeps the block order: filtering a concatenation concatenates the filtered parts. */
  lemma {:induction false} GetTransactionsAppend(a: seq<Transaction>, b: seq<Transaction>)
    ensures GetTransactions(a + b) == GetTransactions(a) + GetTransactions(b)
    decreases |a|
  {
    if a != [] {
      var head := if a[0].txType == CONTRACT_CALL then [a[0]] else [];
      assert (a + b)[0] == a[0] && (a + b)[1..] == a[1..] + b;
      GetTransactionsAppend(a[1..], b);
      assert GetTransactions(a + b) == head + GetTransactions(a[1..] + b);
    } else {
      assert a + b == b;
    }
  }

  /** `getInfo`: the snapshot, the block, the contract calls and the next cycle's id. */
  function GetInfo(poxInfo: PoxInfo, block: Block, blockTxs: seq<Transaction>): (info: ChainInfo)
    ensures info.nextCycleId == poxInfo.rewardCycleId + 1
    ensures info.txs == GetTransactions(blockTxs) && info.poxInfo == poxInfo && info.block == block
  {
    ChainInfo(poxInfo, block, poxInfo.rewardCycleId + 1, GetTransactions(blockTxs))
  }

  /** JavaScript truthiness of the burn height: present and non-zero. */
  function Truthy(h: Option<nat>): (b: bool)
    ensures b <==> h.GetOr(0) > 0
  {
    h.Some? && h.value != 0
  }

  /** The burn height of the observation counts as new: neither absent, nor 0, nor the one last seen. */
  function NewBurnHeight(st: MonitorState, info: ChainInfo): (b: bool)
    ensures b <==> info.poxInfo.currentBurnHeight.GetOr(0) !in {0, st.lastBurnHeight}
  {
    Truthy(info.poxInfo.currentBurnHeight) && info.poxInfo.currentBurnHeight.value != st.lastBurnHeight
  }

  /** The fatal check: a reward cycle id at or above the Epoch 3.0 height, with no reward slots. */
  function Fatal(cfg: PoxConfig, info: ChainInfo): (b: bool)
    ensures info.poxInfo.rewardSlots > 0 ==> !b
    ensures b ==> info.poxInfo.rewardCycleId + 1 >= Epoch30StartCycle(cfg)
  {
    RewardCycleBounds(cfg, cfg.epoch30Start);
    MulMonotone(1, cfg.rewardLength, Epoch30StartCycle(cfg) - 1);
    info.poxInfo.rewardCycleId >= cfg.epoch30Start && info.poxInfo.rewardSlots == 0
  }

  /** The lines one poll shows, from the state before the poll. */
  function StepReport(cfg: PoxConfig, exitFromMonitor: bool, st: MonitorState, info: ChainInfo): (r: Report)
    ensures r.showPrepareMsg ==> r.showBurnMsg
    ensures r.nakamotoBlock ==> !r.showBurnMsg && r.showStxBlockMsg
    ensures r.startingNakamoto ==> r.showBurnMsg
    ensures r.listedTxs != [] ==> r.showStxBlockMsg && r.listedTxs == info.txs
    ensures r.exiting ==> r.fatal
  {
    var showBurn := NewBurnHeight(st, info);
    var h := info.poxInfo.currentBurnHeight.GetOr(0);
    var showStx := info.block.height != st.lastStxHeight;
    var fatal := Fatal(cfg, info);
    Report(
      showBurn,
      showBurn && DidCrossPreparePhase(cfg, st.lastBurnHeight, h),
      info.poxInfo.rewardCycleId != st.lastRewardCycle,
      showStx,
      showBurn && h == cfg.epoch30Start,
      !showBurn && showStx,
      if showStx then info.txs else [],
      fatal,
      fatal && exitFromMonitor)
  }

  /** The state after one poll observed at time `now`. */
  function NextState(st: MonitorState, info: ChainInfo, now: int): (st': MonitorState)
    ensures st'.lastRewardCycle == info.poxInfo.rewardCycleId
    ensures st'.lastStxHeight == info.block.height
    ensures Truthy(info.poxInfo.currentBurnHeight) ==> st'.lastBurnHeight == info.poxInfo.currentBurnHeight.value
    ensures !Truthy(info.poxInfo.currentBurnHeight) ==> st'.lastBurnHeight == st.lastBurnHeight
  {
    var burn := if NewBurnHeight(st, info) then info.poxInfo.currentBurnHeight.value else st.lastBurnHeight;
    if info.block.height != st.lastStxHeight then
      MonitorState(burn, info.block.height, info.poxInfo.rewardCycleId, now, now - st.lastStxBlockTime)
    else
      MonitorState(burn, st.lastStxHeight, info.poxInfo.rewardCycleId, st.lastStxBlockTime, st.lastStxBlockDiff)
  }

  /** Seeing the same observation again shows nothing new and changes nothing, whatever the time. */
  lemma QuietOnRepeat(cfg: PoxConfig, exitFromMonitor: bool, st: MonitorState, info: ChainInfo, t1: int, t2: int)
    ensures var st1 := NextState(st, info, t1);
      var r := StepReport(cfg, exitFromMonitor, st1, info);
      && !r.showBurnMsg && !r.showPrepareMsg && !r.showCycleMsg && !r.showStxBlockMsg
      && !r.startingNakamoto && !r.nakamotoBlock && r.listedTxs == []
      && NextState(st1, info, t2) == st1
  {
  }

  /** The flags compare the observation with the state before the poll, in both directions. */
  lemma ReportFlags(cfg: PoxConfig, exitFromMonitor: bool, st: MonitorState, info: ChainInfo)
    ensures var r := StepReport(cfg, exitFromMonitor, st, info);
      && (r.showBurnMsg <==> NewBurnHeight(st, info))
      && (r.showPrepareMsg <==>
            NewBurnHeight(st, info) &&
            DidCrossPreparePhase(cfg, st.lastBurnHeight, info.poxInfo.currentBurnHeight.value))
      && (r.showCycleMsg <==> info.poxInfo.rewardCycleId != st.lastRewardCycle)
      && (r.showStxBlockMsg <==> info.block.height != st.lastStxHeight)
      && (r.nakamotoBlock <==> info.block.height != st.lastStxHeight && !NewBurnHeight(st, info))
      && (r.startingNakamoto <==>
            NewBurnHeight(st, info) && info.poxInfo.currentBurnHeight.value == cfg.epoch30Start)
      && r.listedTxs == (if r.showStxBlockMsg then info.txs else [])
  {
  }

  /** The fatal check reads only the observation, and the process ends exactly on a fatal poll with exiting enabled. */
  lemma FatalIgnoresState(cfg: PoxConfig, exitFromMonitor: bool, st1: MonitorState, st2: MonitorState, info: ChainInfo)
    ensures StepReport(cfg, exitFromMonitor, st1, info).fatal == StepReport(cfg, exitFromMonitor, st2, info).fatal
    ensures StepReport(cfg, exitFromMonitor, st1, info).fatal <==>
              info.poxInfo.rewardCycleId >= cfg.epoch30Start && info.poxInfo.rewardSlots == 0
    ensures StepReport(cfg, exitFromMonitor, st1, info).exiting <==>
              exitFromMonitor && StepReport(cfg, exitFromMonitor, st1, info).fatal
  {
  }

  /**
   * Climbing the burn chain one height at a time, the prepare-phase line appears exactly when
   * the new height sits at offset L - P + 1 of its cycle.
   */
  lemma PrepareMessageOnClimb(cfg: PoxConfig, exitFromMonitor: bool, st: MonitorState, info: ChainInfo)
    requires cfg.prepareLength <= cfg.rewardLength
    requires info.poxInfo.currentBurnHeight == Some(st.lastBurnHeight + 1)
    ensures StepReport(cfg, exitFromMonitor, st, info).showPrepareMsg <==>
              (st.lastBurnHeight + 1) % cfg.rewardLength == cfg.rewardLength - cfg.prepareLength + 1
  {
    CrossingOneStep(cfg, st.lastBurnHeight);
  }

  /** The block-time delta is measured only when a new STX block is seen. */
  lemma BlockTimeOnNewBlock(st: MonitorState, info: ChainInfo, now: int)
    ensures info.block.height != st.lastStxHeight ==>
              NextState(st, info, now).lastStxBlockTime == now &&
              NextState(st, info, now).lastStxBlockDiff == now - st.lastStxBlockTime
    ensures info.block.height == st.lastStxHeight ==>
              NextState(st, info, now).lastStxBlockTime == st.lastStxBlockTime &&
              NextState(st, info, now).lastStxBlockDiff == st.lastStxBlockDiff
  {
  }

  /** The module-level variables of the monitor and the `loop` that updates them. */
  class Monitor {
    const cfg: PoxConfig
    const exitFromMonitor: bool     // EXIT_FROM_MONITOR === '1'
    var lastBurnHeight: nat
    var lastStxHeight: nat
    var lastRewardCycle: nat
    var lastStxBlockTime: int
    var lastStxBlockDiff: int

    function State(): MonitorState
      reads this
    {
      MonitorState(lastBurnHeight, lastStxHeight, lastRewardCycle, lastStxBlockTime, lastStxBlockDiff)
    }

    /** The monitor at start-up: every height and cycle 0, the block clock at `startTime`. */
    constructor (cfg: PoxConfig, exitFromMonitor: bool, startTime: int)
      ensures this.cfg == cfg && this.exitFromMonitor == exitFromMonitor
      ensures State() == MonitorState(0, 0, 0, startTime, 0)
    {
      this.cfg := cfg;
      this.exitFromMonitor := exitFromMonitor;
      lastBurnHeight, lastStxHeight, lastRewardCycle := 0, 0, 0;
      lastStxBlockTime, lastStxBlockDiff := startTime, 0;
    }

    /**
     * One `loop`: `obs` is what `getInfo` returned, `None` when it threw (the error is caught
     * and logged); `now` is the clock when a new STX block is noticed.
     */
    method Loop(obs: Option<ChainInfo>, now: int) returns (report: Option<Report>)
      modifies this
      ensures obs.None? ==> report.None? && State() == old(State())
      ensures obs.Some? ==> report == Some(StepReport(cfg, exitFromMonitor, old(State()), obs.value))
      ensures obs.Some? ==> State() == NextState(old(State()), obs.value, now)
    {
      if obs.None? {
        return None;
      }
      var info := obs.value;
      var poxInfo := info.poxInfo;
      var height := info.block.height;
      var showBurnMsg, showPrepareMsg, showCycleMsg, showStxBlockMsg := false, false, false, false;
      var startingNakamoto := false;

      if Truthy(poxInfo.currentBurnHeight) && poxInfo.currentBurnHeight.value != lastBurnHeight {
        if DidCrossPreparePhase(cfg, lastBurnHeight, poxInfo.currentBurnHeight.value) {
          showPrepareMsg := true;
        }
        showBurnMsg := true;
        lastBurnHeight := poxInfo.currentBurnHeight.value;
      }

      if poxInfo.rewardCycleId != lastRewardCycle {
        showCycleMsg := true;
        lastRewardCycle := poxInfo.rewardCycleId;
      }

      if height != lastStxHeight {
        showStxBlockMsg := true;
        lastStxHeight := height;
        lastStxBlockDiff := now - lastStxBlockTime;
        lastStxBlockTime := now;
      }

      if showBurnMsg && poxInfo.currentBurnHeight.value == cfg.epoch30Start {
        startingNakamoto := true;
      }
      var nakamotoBlock := !showBurnMsg && showStxBlockMsg;
      var listedTxs := if showStxBlockMsg && |info.txs| > 0 then info.txs else [];
      var fatal := poxInfo.rewardCycleId >= cfg.epoch30Start && poxInfo.rewardSlots == 0;
      var exiting := fatal && exitFromMonitor;
      report := Some(Report(showBurnMsg, showPrepareMsg, showCycleMsg, showStxBlockMsg,
                            startingNakamoto, nakamotoBlock, listedTxs, fatal, exiting));
    }
  }
}
