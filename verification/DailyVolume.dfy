/**
 The hook's buckets against the escrow's transfers, jointly over every run: each bucket is the
 exact sum of what was sent in it, which bounds what any 86,400-second window can hold.
 */
module DailyVolume {
  import opened Prelude
  import opened Totals
  import opened Chain
  import opened Network
  import opened Custody
  import Settlement
  import C = ComplianceRules
  import E = EscrowRules

  /** The amounts that belong in a bucket: by sender, corridor and day of creation, whatever became of them. */
  function InBucket(b: C.Bucket): (nat, E.Transfer) -> int {
    (id: nat, t: E.Transfer) => if b == C.Bucket(t.sender, t.corridor, t.createdAt / 86_400) then t.amount else 0
  }

  function BucketTotal(w: World, b: C.Bucket): int { LookupOr(w.hook.volumes, b, 0) }

  /** The two contracts point at each other, or not yet at anything. */
  predicate Wired(w: World) {
    && (w.hook.escrow.None? || w.hook.escrow == Some(ESCROW))
    && (w.escrow.config.Some? ==> w.escrow.config.value.hook == HOOK)
  }

  /** Actions that leave that wiring alone. */
  predicate KeepsWiring(a: Action) {
    a.Invoke? ==>
      match a.invocation.call
      case ToEscrow(InitializeEscrow(_, _, hook, _, _, _)) => hook == HOOK
      case ToEscrow(ConfigureEscrow(SetComplianceHook(hook))) => hook == HOOK
      case ToHook(ConfigureHook(SetEscrow(escrow))) => escrow == ESCROW
      case _ => true
  }

  ghost predicate BucketsAgree(w: World) {
    forall b :: BucketTotal(w, b) == Total(w.escrow.transfers, InBucket(b))
  }

  ghost predicate JointInv(w: World) {
    Wired(w) && BucketsAgree(w)
  }

  /** Creating a transfer adds its amount to its own bucket and to nothing else, on both sides. */
  lemma CreateKeepsBuckets(w: World, caller: Address, foreign: Foreign, call: EscrowCall)
    requires E.EscrowInv(w.escrow) && JointInv(w)
    requires call.CreateTransfer? && CallEscrow(w, caller, foreign, call).Some?
    ensures JointInv(CallEscrow(w, caller, foreign, call).value)
  {
    var next := CallEscrow(w, caller, foreign, call).value;
    E.CreateEffect(w.escrow, w.hook, w.ledger, caller, foreign.gate, call.sender, call.amount, call.token,
                   call.claimHash, call.corridor, call.expiry);
    C.CommitEffect(w.hook, w.ledger, ESCROW, call.sender, call.amount, call.corridor);
    var t := E.NewTransfer(w.escrow, w.ledger.now, call.sender, call.amount, call.token, call.claimHash, call.corridor, call.expiry);
    forall b ensures BucketTotal(next, b) == Total(next.escrow.transfers, InBucket(b)) {
      TotalPut(w.escrow.transfers, InBucket(b), t.id, t);
    }
  }

  /** Buckets look only at what identifies a transfer, so settling one changes none of them. */
  lemma SettlingKeepsBuckets(before: E.EscrowState, after: E.EscrowState, id: nat, b: C.Bucket)
    requires id in before.transfers && id in after.transfers
    requires after.transfers == before.transfers[id := after.transfers[id]]
    requires E.Evolves(before.transfers[id], after.transfers[id])
    ensures Total(after.transfers, InBucket(b)) == Total(before.transfers, InBucket(b))
  {
    TotalPut(before.transfers, InBucket(b), id, after.transfers[id]);
  }

  lemma SettlingCallKeepsBuckets(w: World, caller: Address, foreign: Foreign, call: EscrowCall)
    requires E.EscrowInv(w.escrow) && JointInv(w) && CallEscrow(w, caller, foreign, call).Some?
    requires Settlement.Settling(call)
    ensures JointInv(CallEscrow(w, caller, foreign, call).value)
  {
    var next := CallEscrow(w, caller, foreign, call).value;
    var fee := Settlement.SettlingCallSettles(w, caller, foreign, call);
    SettledKeepsBuckets(w, next, call.id, fee);
  }

  lemma SettledKeepsBuckets(w: World, next: World, id: nat, fee: int)
    requires JointInv(w) && next.hook == w.hook && next.escrow.config == w.escrow.config
    requires id in next.escrow.transfers && next.escrow.transfers[id].id == id
    requires E.Settles(w.escrow, next.escrow, next.escrow.transfers[id], fee)
    ensures JointInv(next)
  {
    forall b ensures BucketTotal(next, b) == Total(next.escrow.transfers, InBucket(b)) {
      SettlingKeepsBuckets(w.escrow, next.escrow, id, b);
    }
  }

  lemma SetupKeepsBuckets(w: World, caller: Address, foreign: Foreign, call: EscrowCall)
    requires JointInv(w) && CallEscrow(w, caller, foreign, call).Some?
    requires (call.InitializeEscrow? && call.hook == HOOK)
          || (call.ConfigureEscrow? && (call.change.SetComplianceHook? ==> call.change.hook == HOOK))
    ensures JointInv(CallEscrow(w, caller, foreign, call).value)
  {
    var next := CallEscrow(w, caller, foreign, call).value;
    Settlement.SetupIsQuiet(w, caller, foreign, call);
    SetupKeepsWiring(w, caller, foreign, call);
    assert forall b :: BucketTotal(next, b) == BucketTotal(w, b);
  }

  lemma SetupKeepsWiring(w: World, caller: Address, foreign: Foreign, call: EscrowCall)
    requires Wired(w) && CallEscrow(w, caller, foreign, call).Some?
    requires (call.InitializeEscrow? && call.hook == HOOK)
          || (call.ConfigureEscrow? && (call.change.SetComplianceHook? ==> call.change.hook == HOOK))
    ensures Wired(CallEscrow(w, caller, foreign, call).value)
  {
  }

  lemma EscrowCallKeepsBuckets(w: World, caller: Address, foreign: Foreign, call: EscrowCall)
    requires E.EscrowInv(w.escrow) && JointInv(w) && CallEscrow(w, caller, foreign, call).Some?
    requires call.InitializeEscrow? ==> call.hook == HOOK
    requires call.ConfigureEscrow? && call.change.SetComplianceHook? ==> call.change.hook == HOOK
    ensures JointInv(CallEscrow(w, caller, foreign, call).value)
  {
    if call.CreateTransfer? {
      CreateKeepsBuckets(w, caller, foreign, call);
    } else if Settlement.Settling(call) {
      SettlingCallKeepsBuckets(w, caller, foreign, call);
    } else {
      SetupKeepsBuckets(w, caller, foreign, call);
    }
  }

  /** Nobody but the escrow can commit volume: a signed commit always fails. */
  lemma SignedCommitFails(w: World, caller: Address, sender: Address, amount: int, corridor: Symbol)
    requires Wired(w) && caller.Account?
    ensures CallHook(w, caller, CommitTransfer(sender, amount, corridor)).None?
  {
  }

  lemma HookCallKeepsBuckets(w: World, caller: Address, call: HookCall)
    requires JointInv(w) && caller.Account? && CallHook(w, caller, call).Some?
    requires call.ConfigureHook? && call.change.SetEscrow? ==> call.change.escrow == ESCROW
    ensures JointInv(CallHook(w, caller, call).value)
  {
    if call.CommitTransfer? {
      SignedCommitFails(w, caller, call.sender, call.amount, call.corridor);
    } else {
      var next := CallHook(w, caller, call).value;
      assert next.hook.volumes == w.hook.volumes && next.escrow == w.escrow;
      assert forall b :: BucketTotal(next, b) == BucketTotal(w, b);
    }
  }

  lemma DispatchKeepsBuckets(w: World, i: Invocation)
    requires E.EscrowInv(w.escrow) && JointInv(w) && KeepsWiring(Invoke(i))
    requires Dispatch(w, i.Caller(), i.foreign, i.call).Some?
    ensures JointInv(Dispatch(w, i.Caller(), i.foreign, i.call).value)
  {
    match i.call
    case ToEscrow(call) => EscrowCallKeepsBuckets(w, i.Caller(), i.foreign, call);
    case ToHook(call) => HookCallKeepsBuckets(w, i.Caller(), call);
    case ToRegistry(call) => BucketsNeedOnlyRecords(w, Dispatch(w, i.Caller(), i.foreign, i.call).value);
    case ToPool(call) => BucketsNeedOnlyRecords(w, Dispatch(w, i.Caller(), i.foreign, i.call).value);
  }

  lemma BucketsNeedOnlyRecords(w: World, next: World)
    requires JointInv(w) && next.hook == w.hook && next.escrow == w.escrow
    ensures JointInv(next)
  {
    assert forall b :: BucketTotal(next, b) == BucketTotal(w, b);
  }

  lemma StepKeepsBuckets(w: World, a: Action)
    requires E.EscrowInv(w.escrow) && JointInv(w) && KeepsWiring(a)
    ensures JointInv(Step(w, a))
  {
    if a.Invoke? && Succeeds(w, a.invocation) {
      var started := InTransaction(w, a.invocation.txHash);
      BucketsNeedOnlyRecords(w, started);
      DispatchKeepsBuckets(started, a.invocation);
    } else {
      BucketsNeedOnlyRecords(w, Step(w, a));
    }
  }

  /** A run that never rewires the two contracts. */
  predicate AllKeepWiring(actions: seq<Action>) {
    forall k :: 0 <= k < |actions| ==> KeepsWiring(actions[k])
  }

  /** In every run, each bucket holds exactly the amounts of the transfers created in it. */
  lemma {:induction false} BucketsAgreeOverRuns(w: World, actions: seq<Action>)
    requires Inv(w) && JointInv(w) && AllKeepWiring(actions)
    ensures JointInv(After(w, actions))
    decreases |actions|
  {
    if actions != [] {
      var init := actions[..|actions| - 1];
      BucketsAgreeOverRuns(w, init);
      RunKeepsInv(w, init);
      StepKeepsBuckets(After(w, init), actions[|actions| - 1]);
    }
  }

  /* ------------------------------ limits ------------------------------ */

  /** A step changes a bucket at most by a commit of that day, under the limit in force just before it. */
  ghost predicate CommitsWithin(w: World, next: World, b: C.Bucket) {
    BucketTotal(next, b) != BucketTotal(w, b) ==>
      && 86_400 * b.day <= w.ledger.now < 86_400 * (b.day + 1)
      && b.corridor in w.hook.thresholds
      && BucketTotal(w, b) < BucketTotal(next, b) <= w.hook.thresholds[b.corridor].dailyLimit
  }

  lemma EscrowCallCommitsWithin(w: World, caller: Address, foreign: Foreign, call: EscrowCall, b: C.Bucket)
    requires CallEscrow(w, caller, foreign, call).Some?
    ensures CommitsWithin(w, CallEscrow(w, caller, foreign, call).value, b)
  {
    if call.CreateTransfer? {
      E.CreateEffect(w.escrow, w.hook, w.ledger, caller, foreign.gate, call.sender, call.amount, call.token,
                     call.claimHash, call.corridor, call.expiry);
      if w.escrow.config.value.hook == HOOK {
        C.CommitEffect(w.hook, w.ledger, ESCROW, call.sender, call.amount, call.corridor);
      }
    }
  }

  lemma EscrowCallKeepsThresholds(w: World, caller: Address, foreign: Foreign, call: EscrowCall)
    requires CallEscrow(w, caller, foreign, call).Some?
    ensures CallEscrow(w, caller, foreign, call).value.hook.thresholds == w.hook.thresholds
  {
    if call.CreateTransfer? && w.escrow.config.Some? && w.escrow.config.value.hook == HOOK {
      C.CommitEffect(w.hook, w.ledger, ESCROW, call.sender, call.amount, call.corridor);
    }
  }

  lemma HookCallCommitsWithin(w: World, caller: Address, call: HookCall, b: C.Bucket)
    requires CallHook(w, caller, call).Some?
    ensures CommitsWithin(w, CallHook(w, caller, call).value, b)
  {
    if call.CommitTransfer? {
      C.CommitEffect(w.hook, w.ledger, caller, call.sender, call.amount, call.corridor);
    }
  }

  lemma StepCommitsWithin(w: World, a: Action, b: C.Bucket)
    ensures CommitsWithin(w, Step(w, a), b)
  {
    if a.Invoke? && Succeeds(w, a.invocation) {
      var i, started := a.invocation, InTransaction(w, a.invocation.txHash);
      match i.call
      case ToEscrow(call) => EscrowCallCommitsWithin(started, i.Caller(), i.foreign, call, b);
      case ToHook(call) => HookCallCommitsWithin(started, i.Caller(), call, b);
      case _ =>
    }
  }

  /** The limit that was in force when a bucket was last committed to; its start value if it never was. */
  ghost function LimitAtLastCommit(w: World, actions: seq<Action>, b: C.Bucket): int
    decreases |actions|
  {
    if actions == [] then BucketTotal(w, b)
    else
      var init := actions[..|actions| - 1];
      var before := After(w, init);
      if BucketTotal(After(w, actions), b) == BucketTotal(before, b) || b.corridor !in before.hook.thresholds
      then LimitAtLastCommit(w, init, b)
      else before.hook.thresholds[b.corridor].dailyLimit
  }

  /** In every run, no bucket exceeds the limit in force at its last commit; wiring does not matter. */
  lemma {:induction false} BucketsStayUnderLimits(w: World, actions: seq<Action>, b: C.Bucket)
    ensures BucketTotal(After(w, actions), b) <= LimitAtLastCommit(w, actions, b)
    decreases |actions|
  {
    if actions != [] {
      var init := actions[..|actions| - 1];
      BucketsStayUnderLimits(w, init, b);
      StepCommitsWithin(After(w, init), actions[|actions| - 1], b);
    }
  }

  /** A corridor's limit and all of its buckets at or below `limit`. */
  ghost predicate Below(w: World, corridor: Symbol, limit: int) {
    && LimitAtMost(w.hook, corridor, limit)
    && (forall b :: b in w.hook.volumes && b.corridor == corridor ==> w.hook.volumes[b] <= limit)
  }

  /** Actions that never set the corridor's limit above `limit`. */
  predicate KeepsLimit(a: Action, corridor: Symbol, limit: int) {
    a.Invoke? ==>
      match a.invocation.call
      case ToHook(ConfigureHook(SetTierThresholds(t))) => t.corridor == corridor ==> t.dailyLimit <= limit
      case _ => true
  }

  predicate AllKeepLimit(actions: seq<Action>, corridor: Symbol, limit: int) {
    forall k :: 0 <= k < |actions| ==> KeepsLimit(actions[k], corridor, limit)
  }

  predicate LimitAtMost(h: C.HookState, corridor: Symbol, limit: int) {
    corridor in h.thresholds ==> h.thresholds[corridor].dailyLimit <= limit
  }

  lemma HookCallKeepsLimit(w: World, caller: Address, call: HookCall, corridor: Symbol, limit: int)
    requires CallHook(w, caller, call).Some? && LimitAtMost(w.hook, corridor, limit)
    requires call.ConfigureHook? && call.change.SetTierThresholds? && call.change.thresholds.corridor == corridor
         ==> call.change.thresholds.dailyLimit <= limit
    ensures LimitAtMost(CallHook(w, caller, call).value.hook, corridor, limit)
  {
  }

  lemma StepKeepsLimit(w: World, a: Action, corridor: Symbol, limit: int)
    requires KeepsLimit(a, corridor, limit) && LimitAtMost(w.hook, corridor, limit)
    ensures LimitAtMost(Step(w, a).hook, corridor, limit)
  {
    if a.Invoke? && Succeeds(w, a.invocation) {
      var i, started := a.invocation, InTransaction(w, a.invocation.txHash);
      match i.call
      case ToEscrow(call) => EscrowCallKeepsThresholds(started, i.Caller(), i.foreign, call);
      case ToHook(call) => HookCallKeepsLimit(started, i.Caller(), call, corridor, limit);
      case _ =>
    }
  }

  lemma {:induction false} BucketsStayBelow(w: World, actions: seq<Action>, corridor: Symbol, limit: int)
    requires 0 <= limit && Below(w, corridor, limit) && AllKeepLimit(actions, corridor, limit)
    ensures Below(After(w, actions), corridor, limit)
    decreases |actions|
  {
    if actions != [] {
      var init, last := actions[..|actions| - 1], actions[|actions| - 1];
      BucketsStayBelow(w, init, corridor, limit);
      StepKeepsLimit(After(w, init), last, corridor, limit);
      forall b | b in After(w, actions).hook.volumes && b.corridor == corridor
        ensures After(w, actions).hook.volumes[b] <= limit
      {
        StepCommitsWithin(After(w, init), last, b);
      }
    }
  }

  /** The amounts a sender sent in a corridor inside the 86,400 seconds from `start`. */
  function InWindow(sender: Address, corridor: Symbol, start: nat): (nat, E.Transfer) -> int {
    (id: nat, t: E.Transfer) =>
      if t.sender == sender && t.corridor == corridor && start <= t.createdAt < start + 86_400 then t.amount else 0
  }

  ghost function SentWithin(w: World, sender: Address, corridor: Symbol, start: nat): int {
    Total(w.escrow.transfers, InWindow(sender, corridor, start))
  }

  /** Two moments share a day exactly when both lie in one stretch of 86,400 seconds that starts at a multiple of them. */
  lemma DayIsItsStretch(moment: nat, day: nat)
    ensures C.DayOf(moment) == day <==> 86_400 * day <= moment < 86_400 * (day + 1)
  {
  }

  /** Nothing else decides which bucket a commit goes to: the one of its own day moves, by the amount, and no other. */
  lemma CommitFillsItsDay(h: C.HookState, ledger: LedgerState, caller: Address, sender: Address, amount: int, corridor: Symbol, b: C.Bucket)
    requires C.CommitTransfer(h, ledger, caller, sender, amount, corridor).Ok?
    ensures var next := C.CommitTransfer(h, ledger, caller, sender, amount, corridor).value.state;
            var hit := b.sender == sender && b.corridor == corridor && 86_400 * b.day <= ledger.now < 86_400 * (b.day + 1);
            LookupOr(next.volumes, b, 0) == LookupOr(h.volumes, b, 0) + (if hit then amount else 0)
  {
    C.CommitEffect(h, ledger, caller, sender, amount, corridor);
    DayIsItsStretch(ledger.now, b.day);
  }

  /** A window meets at most two days. */
  lemma WindowMeetsTwoDays(start: nat, moment: nat)
    requires start <= moment < start + 86_400
    ensures C.DayOf(moment) == C.DayOf(start) || C.DayOf(moment) == C.DayOf(start) + 1
  {
  }

  lemma WindowWithinTwoBuckets(w: World, sender: Address, corridor: Symbol, start: nat)
    requires BucketsAgree(w) && forall id :: id in w.escrow.transfers ==> 0 <= w.escrow.transfers[id].amount
    ensures SentWithin(w, sender, corridor, start)
         <= BucketTotal(w, C.Bucket(sender, corridor, C.DayOf(start)))
          + BucketTotal(w, C.Bucket(sender, corridor, C.DayOf(start) + 1))
  {
    var today, tomorrow := C.Bucket(sender, corridor, C.DayOf(start)), C.Bucket(sender, corridor, C.DayOf(start) + 1);
    var both := (id: nat, t: E.Transfer) => InBucket(today)(id, t) + InBucket(tomorrow)(id, t);
    forall id | id in w.escrow.transfers
      ensures InWindow(sender, corridor, start)(id, w.escrow.transfers[id]) <= both(id, w.escrow.transfers[id])
    {
      var t := w.escrow.transfers[id];
      if start <= t.createdAt < start + 86_400 {
        WindowMeetsTwoDays(start, t.createdAt);
      }
    }
    TotalOrdered(w.escrow.transfers, InWindow(sender, corridor, start), both);
    TotalPlus(w.escrow.transfers, InBucket(today), InBucket(tomorrow), both);
    assert BucketTotal(w, today) == Total(w.escrow.transfers, InBucket(today));
    assert BucketTotal(w, tomorrow) == Total(w.escrow.transfers, InBucket(tomorrow));
  }

  lemma WindowWithinLimits(w: World, sender: Address, corridor: Symbol, start: nat, limit: int)
    requires BucketsAgree(w) && E.RecordsSound(w.escrow) && 0 <= limit && Below(w, corridor, limit)
    ensures SentWithin(w, sender, corridor, start) <= 2 * limit
  {
    WindowWithinTwoBuckets(w, sender, corridor, start);
  }

  /**
   Over every run with the wiring fixed and the corridor's limit never above `limit`, nobody sends
   more than twice that limit inside any 86,400 seconds.
   */
  lemma WindowWithinTwiceTheLimit(w: World, actions: seq<Action>, sender: Address, corridor: Symbol, start: nat, limit: int)
    requires Inv(w) && JointInv(w) && AllKeepWiring(actions)
    requires 0 <= limit && Below(w, corridor, limit) && AllKeepLimit(actions, corridor, limit)
    ensures SentWithin(After(w, actions), sender, corridor, start) <= 2 * limit
  {
    var after := After(w, actions);
    RunKeepsInv(w, actions);
    BucketsAgreeOverRuns(w, actions);
    BucketsStayBelow(w, actions, corridor, limit);
    WindowWithinLimits(after, sender, corridor, start, limit);
  }

  ghost predicate StartsWithin(w: World, corridor: Symbol, limit: int) {
    Inv(w) && JointInv(w) && Below(w, corridor, limit)
  }

  lemma BlankIsJoint(w: World, corridor: Symbol, limit: int)
    requires Blank(w) && 0 <= limit
    ensures JointInv(w) && Below(w, corridor, limit)
  {
  }

  lemma BlankStartsWithin(w: World, corridor: Symbol, limit: int)
    requires Blank(w) && 0 <= limit
    ensures StartsWithin(w, corridor, limit)
  {
    BlankIsJoint(w, corridor, limit);
    BlankIsBalanced(w);
  }

  lemma WindowFromStart(w: World, actions: seq<Action>, sender: Address, corridor: Symbol, start: nat, limit: int)
    requires StartsWithin(w, corridor, limit) && 0 <= limit && AllKeepWiring(actions) && AllKeepLimit(actions, corridor, limit)
    ensures SentWithin(After(w, actions), sender, corridor, start) <= 2 * limit
  {
    WindowWithinTwiceTheLimit(w, actions, sender, corridor, start, limit);
  }

  /** From a blank world nothing else need be assumed. */
  lemma WindowFromBlank(w: World, actions: seq<Action>, sender: Address, corridor: Symbol, start: nat, limit: int)
    requires Blank(w) && AllKeepWiring(actions) && 0 <= limit && AllKeepLimit(actions, corridor, limit)
    ensures SentWithin(After(w, actions), sender, corridor, start) <= 2 * limit
  {
    BlankStartsWithin(w, corridor, limit);
    WindowFromStart(w, actions, sender, corridor, start, limit);
  }

  /* ------------------------------ the bound is attained ------------------------------ */

  /** What a sender below the attestation threshold needs to send `amount` in a corridor, now and a second later. */
  ghost predicate ReadyToSend(w: World, sender: nat, token: Address, amount: int, corridor: Symbol) {
    && w.escrow.config.Some? && !w.escrow.config.value.paused
    && w.escrow.config.value.hook == HOOK && 1 <= w.escrow.config.value.maxExpirySecs
    && w.hook.escrow == Some(ESCROW) && !w.hook.paused
    && corridor in w.hook.thresholds
    && w.hook.thresholds[corridor].tier1Max == w.hook.thresholds[corridor].dailyLimit == amount
    && Account(sender) !in w.hook.attestations
    && 0 < amount <= Balance(w.ledger.book, token, Account(sender))
    && Balance(w.ledger.book, token, ESCROW) + amount <= I128_MAX
    && w.escrow.stats.volumeLocked + amount <= I128_MAX
    && 0 <= w.escrow.stats.volumeLocked && 0 <= Balance(w.ledger.book, token, ESCROW)
    && w.escrow.lastId < U64_MAX
    && BucketTotal(w, C.Bucket(Account(sender), corridor, C.DayOf(w.ledger.now))) == 0
  }

  function SendNow(w: World, sender: nat, token: Address, amount: i128, corridor: Symbol): Invocation {
    Invocation(sender, "", SILENT,
               ToEscrow(CreateTransfer(Account(sender), amount, token, Bytes32([]), corridor, w.ledger.now + 1)))
  }

  /** A ready sender's transfer goes through and is filed under the present moment. */
  lemma ReadySenderSends(w: World, sender: nat, token: Address, amount: i128, corridor: Symbol)
    requires ReadyToSend(w, sender, token, amount, corridor)
    ensures var next := Run(w, SendNow(w, sender, token, amount, corridor));
            var t := E.NewTransfer(w.escrow, w.ledger.now, Account(sender), amount, token, Bytes32([]), corridor, w.ledger.now + 1);
            && next.escrow.transfers == w.escrow.transfers[w.escrow.lastId + 1 := t]
            && next.escrow.lastId == w.escrow.lastId + 1
            && next.escrow.config == w.escrow.config
            && next.escrow.stats.volumeLocked == w.escrow.stats.volumeLocked + amount
            && next.hook == w.hook.(volumes := next.hook.volumes, stats := next.hook.stats)
            && next.hook.volumes == w.hook.volumes[C.Bucket(Account(sender), corridor, C.DayOf(w.ledger.now)) := amount]
            && Balance(next.ledger.book, token, Account(sender)) == Balance(w.ledger.book, token, Account(sender)) - amount
            && Balance(next.ledger.book, token, ESCROW) == Balance(w.ledger.book, token, ESCROW) + amount
            && next.ledger.now == w.ledger.now
  {
  }

  const TOKEN := Contract(9)
  const CORRIDOR := "corridor"

  /** Deploying hook and escrow with a daily limit, and funding one sender with twice that limit. */
  function Deployment(limit: i128): seq<Action> {
    [Signed(0, ToHook(InitializeHook(Account(0)))),
     Signed(0, ToHook(ConfigureHook(C.SetEscrow(ESCROW)))),
     Signed(0, ToHook(ConfigureHook(C.SetTierThresholds(C.TierThresholds(CORRIDOR, limit, limit, limit))))),
     Signed(0, ToEscrow(InitializeEscrow(Account(0), REGISTRY, HOOK, Account(0), 0, 1))),
     Mint(TOKEN, Account(7), 2 * limit)]
  }

  /** What that deployment leads to, in the last second of a day. */
  ghost predicate Deployed(w: World, limit: i128) {
    && ReadyToSend(w, 7, TOKEN, limit, CORRIDOR)
    && w.escrow.transfers == map[] && w.escrow.lastId == 0 && w.escrow.stats.volumeLocked == 0
    && w.hook.volumes == map[]
    && Balance(w.ledger.book, TOKEN, Account(7)) == 2 * limit && Balance(w.ledger.book, TOKEN, ESCROW) == 0
    && w.ledger.now == 86_399 && 2 * limit <= I128_MAX
  }

  lemma HookDeploys(w: World, limit: i128)
    requires w.hook == C.BLANK_HOOK && 0 < limit
    ensures var plan := Deployment(limit);
            Step(Step(Step(w, plan[0]), plan[1]), plan[2])
            == w.(hook := C.BLANK_HOOK.(admin := Some(Account(0)), escrow := Some(ESCROW), corridors := [CORRIDOR],
                    thresholds := map[CORRIDOR := C.TierThresholds(CORRIDOR, limit, limit, limit)]),
                  ledger := w.ledger.(txHash := ""))
  {
    var plan := Deployment(limit);
    assert Step(w, plan[0]) == w.(hook := C.BLANK_HOOK.(admin := Some(Account(0))), ledger := w.ledger.(txHash := ""));
    assert Step(Step(w, plan[0]), plan[1])
        == w.(hook := C.BLANK_HOOK.(admin := Some(Account(0)), escrow := Some(ESCROW)), ledger := w.ledger.(txHash := ""));
  }

  lemma EscrowDeploys(w: World, limit: i128)
    requires w.escrow == E.BLANK_ESCROW && w.ledger.book == map[] && 0 < limit && 2 * limit <= I128_MAX
    ensures var plan := Deployment(limit);
            Step(Step(w, plan[3]), plan[4])
            == w.(escrow := E.BLANK_ESCROW.(admin := Some(Account(0)),
                    config := Some(E.EscrowConfig(REGISTRY, HOOK, Account(0), 0, false, 1))),
                  ledger := w.ledger.(txHash := "", book := map[Holding(TOKEN, Account(7)) := 2 * limit]))
  {
    var plan := Deployment(limit);
    assert Step(w, plan[3]) == w.(escrow := E.BLANK_ESCROW.(admin := Some(Account(0)),
                    config := Some(E.EscrowConfig(REGISTRY, HOOK, Account(0), 0, false, 1))),
                  ledger := w.ledger.(txHash := ""));
    assert Supply(map[], TOKEN) == 0;
  }

  lemma DeploymentDeploys(w: World, limit: i128)
    requires Blank(w) && w.ledger.now == 86_399 && 0 < limit && 2 * limit <= I128_MAX
    ensures Deployed(After(w, Deployment(limit)), limit)
  {
    var plan := Deployment(limit);
    assert plan == plan[..0] + [plan[0]] + [plan[1]] + [plan[2]] + [plan[3]] + [plan[4]];
    AfterOneMore(w, plan[..0], plan[0]);
    AfterOneMore(w, plan[..0] + [plan[0]], plan[1]);
    AfterOneMore(w, plan[..0] + [plan[0]] + [plan[1]], plan[2]);
    AfterOneMore(w, plan[..0] + [plan[0]] + [plan[1]] + [plan[2]], plan[3]);
    AfterOneMore(w, plan[..0] + [plan[0]] + [plan[1]] + [plan[2]] + [plan[3]], plan[4]);
    HookDeploys(w, limit);
    EscrowDeploys(Step(Step(Step(w, plan[0]), plan[1]), plan[2]), limit);
  }

  /** The limit in the last second of one day, and again in the first second of the next. */
  ghost function Overnight(w: World, limit: i128): seq<Action> {
    var first := Invoke(SendNow(w, 7, TOKEN, limit, CORRIDOR));
    [first, CloseLedger(1), Invoke(SendNow(Step(Step(w, first), CloseLedger(1)), 7, TOKEN, limit, CORRIDOR))]
  }

  lemma FilingFillsWindow(w: World, next: World, t: E.Transfer, start: nat)
    requires t.id !in w.escrow.transfers && next.escrow.transfers == w.escrow.transfers[t.id := t]
    requires start <= t.createdAt < start + 86_400
    ensures SentWithin(next, t.sender, t.corridor, start) == SentWithin(w, t.sender, t.corridor, start) + t.amount
  {
    TotalPut(w.escrow.transfers, InWindow(t.sender, t.corridor, start), t.id, t);
  }

  lemma SendFillsWindow(w: World, sender: nat, token: Address, amount: i128, corridor: Symbol, start: nat)
    requires ReadyToSend(w, sender, token, amount, corridor) && w.escrow.lastId + 1 !in w.escrow.transfers
    requires start <= w.ledger.now < start + 86_400
    ensures SentWithin(Run(w, SendNow(w, sender, token, amount, corridor)), Account(sender), corridor, start)
         == SentWithin(w, Account(sender), corridor, start) + amount
  {
    ReadySenderSends(w, sender, token, amount, corridor);
    var next := Run(w, SendNow(w, sender, token, amount, corridor));
    FilingFillsWindow(w, next, next.escrow.transfers[w.escrow.lastId + 1], start);
  }

  lemma ReadyAgainNextSecond(w: World, limit: i128)
    requires Deployed(w, limit)
    ensures var next := Step(Run(w, SendNow(w, 7, TOKEN, limit, CORRIDOR)), CloseLedger(1));
            && ReadyToSend(next, 7, TOKEN, limit, CORRIDOR)
            && next.escrow.lastId + 1 !in next.escrow.transfers
            && next.ledger.now == w.ledger.now + 1
  {
    ReadySenderSends(w, 7, TOKEN, limit, CORRIDOR);
  }

  lemma OvernightSendsTwice(w: World, limit: i128)
    requires Deployed(w, limit)
    ensures var plan := Overnight(w, limit);
            SentWithin(Step(Step(Step(w, plan[0]), plan[1]), plan[2]), Account(7), CORRIDOR, w.ledger.now) == 2 * limit
  {
    var next := Step(Run(w, SendNow(w, 7, TOKEN, limit, CORRIDOR)), CloseLedger(1));
    SendFillsWindow(w, 7, TOKEN, limit, CORRIDOR, w.ledger.now);
    ReadyAgainNextSecond(w, limit);
    SendFillsWindow(next, 7, TOKEN, limit, CORRIDOR, w.ledger.now);
  }

  lemma PlanKeepsWiringAndLimit(w: World, limit: i128)
    ensures AllKeepWiring(Deployment(limit) + Overnight(w, limit))
    ensures AllKeepLimit(Deployment(limit) + Overnight(w, limit), CORRIDOR, limit)
  {
  }

  /** The bound is tight: for every limit some run, which keeps wiring and limit, sends twice it within 86,400 seconds. */
  lemma TwiceTheLimitIsAttained(start: World, limit: i128) returns (actions: seq<Action>)
    requires Blank(start) && start.ledger.now == 86_399
    requires 0 < limit && 2 * limit <= I128_MAX
    ensures AllKeepWiring(actions) && AllKeepLimit(actions, CORRIDOR, limit)
    ensures SentWithin(After(start, actions), Account(7), CORRIDOR, 86_399) == 2 * limit
  {
    var setup := Deployment(limit);
    DeploymentDeploys(start, limit);
    OvernightSendsTwice(After(start, setup), limit);
    PlanKeepsWiringAndLimit(After(start, setup), limit);
    AfterThreeMore(start, setup, Overnight(After(start, setup), limit));
    actions := setup + Overnight(After(start, setup), limit);
  }

  lemma AfterThreeMore(w: World, actions: seq<Action>, more: seq<Action>)
    requires |more| == 3
    ensures After(w, actions + more) == Step(Step(Step(After(w, actions), more[0]), more[1]), more[2])
  {
    assert actions + more == actions + [more[0]] + [more[1]] + [more[2]];
    AfterOneMore(w, actions, more[0]);
    AfterOneMore(w, actions + [more[0]], more[1]);
    AfterOneMore(w, actions + [more[0]] + [more[1]], more[2]);
  }
}
