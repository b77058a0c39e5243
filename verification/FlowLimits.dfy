// Flow limits of a token manager: counters per six-hour epoch, reset lazily, and the window bound they give.
module FlowLimits {
  import opened Prelude

  const EPOCH_TIME: nat := 6 * 60 * 60

  datatype FlowDirection = In | Out

  datatype FlowError = ArithmeticOverflow | FlowLimitExceeded

  datatype FlowState = FlowState(flowLimit: Option<u64>, flowIn: u64, flowOut: u64, epoch: u64)
  {
    // Tokens that came in, less those that went out, in the epoch of the counters.
    function Net(): int {
      flowIn - flowOut
    }

    // The counters as a transfer in the given epoch finds them.
    function At(now: u64): FlowState {
      if epoch == now then this else this.(flowIn := 0, flowOut := 0, epoch := now)
    }
  }

  function FlowEpochWithTimestamp(timestamp: i64): Result<u64, FlowError> {
    if timestamp < 0 then Err(ArithmeticOverflow) else Ok(timestamp / EPOCH_TIME)
  }

  function Signed(amount: nat, direction: FlowDirection): int {
    if direction == In then amount as int else -(amount as int)
  }

  predicate Within(x: int, bound: int) {
    -bound <= x <= bound
  }

  // A flow is added when the transfer, the counter and the net flow after it all stay within bounds.
  function AddFlowSpec(f: FlowState, amount: u64, direction: FlowDirection): Result<FlowState, FlowError> {
    match f.flowLimit
    case None => Ok(f)
    case Some(limit) =>
      var counter := (if direction == In then f.flowIn else f.flowOut) + amount;
      var net := f.Net() + Signed(amount, direction);
      if amount > limit then Err(FlowLimitExceeded)
      else if counter > U64_MAX then Err(ArithmeticOverflow)
      else if !Within(net, limit) then Err(FlowLimitExceeded)
      else Ok(if direction == In then f.(flowIn := counter) else f.(flowOut := counter))
  }

  function TrackSpec(f: FlowState, amount: u64, direction: FlowDirection, now: i64): Result<FlowState, FlowError> {
    if f.flowLimit.None? then Ok(f)
    else
      var epoch :- FlowEpochWithTimestamp(now);
      AddFlowSpec(f.At(epoch), amount, direction)
  }

  // ---------- The flow slot, updated in place ----------

  class FlowSlot {
    var flowLimit: Option<u64>
    var flowIn: u64
    var flowOut: u64
    var epoch: u64

    function View(): FlowState
      reads this
    {
      FlowState(flowLimit, flowIn, flowOut, epoch)
    }

    constructor (f: FlowState)
      ensures View() == f
    {
      flowLimit, flowIn, flowOut, epoch := f.flowLimit, f.flowIn, f.flowOut, f.epoch;
    }

    // The new value of the counter to add to; the other one is only compared with.
    static method UpdateFlow(limit: u64, toAdd: u64, toCompare: u64, amount: u64) returns (r: Result<u64, FlowError>)
      ensures r.Ok? <==> amount <= limit && toAdd + amount <= U64_MAX && Within(toAdd + amount - toCompare, limit)
      ensures r.Ok? ==> r.value == toAdd + amount
      ensures r.Err? ==>
        r.error == if amount <= limit && toAdd + amount > U64_MAX then ArithmeticOverflow else FlowLimitExceeded
    {
      if amount > limit {
        return Err(FlowLimitExceeded);
      }
      if toAdd + amount > U64_MAX {
        return Err(ArithmeticOverflow);
      }
      var newFlow := toAdd + amount;
      var netFlow := if newFlow >= toCompare then newFlow - toCompare else toCompare - newFlow;
      if netFlow > limit {
        return Err(FlowLimitExceeded);
      }
      r := Ok(newFlow);
    }

    method AddFlow(amount: u64, direction: FlowDirection) returns (r: Result<(), FlowError>)
      modifies this`flowIn, this`flowOut
      ensures Follows(old(View()), View(), r, AddFlowSpec(old(View()), amount, direction))
    {
      if flowLimit.None? {
        return Ok(());
      }
      match direction {
        case In =>
          var updated := UpdateFlow(flowLimit.value, flowIn, flowOut, amount);
          if updated.Err? {
            return Err(updated.error);
          }
          flowIn := updated.value;
        case Out =>
          var updated := UpdateFlow(flowLimit.value, flowOut, flowIn, amount);
          if updated.Err? {
            return Err(updated.error);
          }
          flowOut := updated.value;
      }
      r := Ok(());
    }

    /** A failed transfer's reset of the counters is undone with the rest of its transaction, so only success is stated
        in full. */
    method Track(amount: u64, direction: FlowDirection, now: i64) returns (r: Result<(), FlowError>)
      modifies this`flowIn, this`flowOut, this`epoch
      ensures var spec := TrackSpec(old(View()), amount, direction, now);
        if spec.Ok? then r == Ok(()) && View() == spec.value else r == Err(spec.error)
    {
      if flowLimit.None? {
        return Ok(());
      }
      var currentEpoch := FlowEpochWithTimestamp(now);
      if currentEpoch.Err? {
        return Err(currentEpoch.error);
      }
      if epoch != currentEpoch.value {
        flowIn := 0;
        flowOut := 0;
        epoch := currentEpoch.value;
      }
      r := AddFlow(amount, direction);
    }
  }

  // ---------- When a transfer fits ----------

  // Without a limit anything does. Otherwise the amount, the counter of its direction and the net flow after it must
  // stay within bounds, counting from zero in a new epoch of six hours.
  predicate Fits(f: FlowState, amount: u64, direction: FlowDirection, now: i64) {
    match f.flowLimit
    case None => true
    case Some(limit) =>
      && now >= 0 && amount <= limit
      && var sameEpoch := f.epoch == now / 21600;
        var flowIn, flowOut: int := if sameEpoch then f.flowIn else 0, if sameEpoch then f.flowOut else 0;
        if direction == In then flowIn + amount <= U64_MAX && Within(flowIn + amount - flowOut, limit)
        else flowOut + amount <= U64_MAX && Within(flowOut + amount - flowIn, limit)
  }

  // The counters after it: one of them up by the amount, in the epoch of the clock, or untouched without a limit.
  predicate Counts(f: FlowState, after: FlowState, amount: u64, direction: FlowDirection, now: i64) {
    if f.flowLimit.None? then after == f
    else
      var sameEpoch := f.epoch == now / 21600;
      && after.flowLimit == f.flowLimit && after.epoch == now / 21600
      && after.flowIn == (if sameEpoch then f.flowIn else 0) + (if direction == In then amount else 0)
      && after.flowOut == (if sameEpoch then f.flowOut else 0) + (if direction == Out then amount else 0)
  }

  /** A transfer is tracked exactly when it fits, and counted in the direction it goes. */
  lemma TrackedExactlyWhenItFits(f: FlowState, amount: u64, direction: FlowDirection, now: i64)
    ensures TrackSpec(f, amount, direction, now).Ok? <==> Fits(f, amount, direction, now)
    ensures TrackSpec(f, amount, direction, now).Ok? ==>
      Counts(f, TrackSpec(f, amount, direction, now).value, amount, direction, now)
  {}

  // ---------- Any number of transfers under one limit ----------

  datatype Transfer = Transfer(amount: u64, direction: FlowDirection, now: i64)

  function Epoch(t: Transfer): nat {
    if t.now < 0 then 0 else t.now / EPOCH_TIME
  }

  // The counters after the transfers, rejected ones having changed nothing.
  function TrackAll(f: FlowState, transfers: seq<Transfer>): FlowState {
    if |transfers| == 0 then f
    else
      var before, t := TrackAll(f, transfers[..|transfers| - 1]), transfers[|transfers| - 1];
      match TrackSpec(before, t.amount, t.direction, t.now)
      case Ok(after) => after
      case Err(_) => before
  }

  // What the accepted transfers brought in, less what they took out.
  function NetBridged(f: FlowState, transfers: seq<Transfer>): int {
    if |transfers| == 0 then 0
    else
      var earlier, t := transfers[..|transfers| - 1], transfers[|transfers| - 1];
      NetBridged(f, earlier)
      + if TrackSpec(TrackAll(f, earlier), t.amount, t.direction, t.now).Ok? then Signed(t.amount, t.direction) else 0
  }

  ghost predicate ClockFrom(f: FlowState, transfers: seq<Transfer>) {
    && (forall i :: 0 <= i < |transfers| ==> transfers[i].now >= 0 && f.epoch <= Epoch(transfers[i]))
    && (forall i, j :: 0 <= i < j < |transfers| ==> transfers[i].now <= transfers[j].now)
  }

  predicate WithinLimit(f: FlowState, limit: u64) {
    f.flowLimit == Some(limit) && Within(f.Net(), limit)
  }

  lemma TrackedStaysWithinLimit(f: FlowState, limit: u64, amount: u64, direction: FlowDirection, now: i64)
    requires WithinLimit(f, limit) && TrackSpec(f, amount, direction, now).Ok?
    ensures WithinLimit(TrackSpec(f, amount, direction, now).value, limit) && amount <= limit
    ensures TrackSpec(f, amount, direction, now).value.Net() == f.At(now / EPOCH_TIME).Net() + Signed(amount, direction)
    ensures TrackSpec(f, amount, direction, now).value.epoch == now / EPOCH_TIME
  {}

  // The number of six-hour epochs from the first transfer of a window to its last.
  function EpochsTouched(transfers: seq<Transfer>): nat
    requires |transfers| > 0 && Epoch(transfers[0]) <= Epoch(transfers[|transfers| - 1])
  {
    Epoch(transfers[|transfers| - 1]) - Epoch(transfers[0]) + 1
  }

  // k limits, as a repeated sum.
  function Times(k: nat, limit: nat): nat {
    if k == 0 then 0 else Times(k - 1, limit) + limit
  }

  lemma {:induction false} TimesIsProduct(k: nat, limit: nat)
    ensures Times(k, limit) == k * limit
  {
    if k == 0 {
    } else {
      TimesIsProduct(k - 1, limit);
      assert (k - 1) * limit + limit == k * limit;
    }
  }

  lemma {:induction false} TimesGrows(k: nat, l: nat, limit: nat)
    requires k <= l
    ensures Times(k, limit) <= Times(l, limit)
  {
    if k == l {
    } else {
      TimesGrows(k, l - 1, limit);
    }
  }

  // ---------- The window bound ----------

  // How far the net flow of a window's first epoch can be from zero when it starts there.
  function Reach(limit: nat, start: int): nat {
    if Within(start, limit) then limit else if start < 0 then -start else start
  }

  /** What the counters say of a window that began with net flow `start`, has bridged `total` since, and has reached the
      given epoch, `later` epochs after the one it began in. */
  ghost predicate Tallied(f: FlowState, limit: u64, start: int, total: int, later: nat, epoch: nat) {
    && epoch <= U64_MAX && f.flowLimit == Some(limit) && f.epoch <= epoch
    && Within(total + start - f.At(epoch).Net(),
              if later == 0 then 0 else Reach(limit, start) + Times(later - 1, limit))
    && Within(f.At(epoch).Net(), if later == 0 then Reach(limit, start) else limit)
  }

  lemma WindowBegins(f: FlowState, limit: u64, epoch: u64)
    requires f.flowLimit == Some(limit) && f.epoch <= epoch
    ensures Tallied(f, limit, f.At(epoch).Net(), 0, 0, epoch)
  {}

  // Moving on to a later epoch leaves the net flow of the last one behind.
  lemma WindowMovesOn(f: FlowState, limit: u64, start: int, total: int, later: nat, epoch: nat, next: nat)
    requires Tallied(f, limit, start, total, later, epoch) && epoch <= next <= U64_MAX
    ensures Tallied(f, limit, start, total, later + (next - epoch), next)
  {
    if epoch < next {
      TimesGrows(later, later + (next - epoch) - 1, limit);
    }
  }

  lemma WindowTakesTransfer(f: FlowState, limit: u64, start: int, total: int, later: nat, t: Transfer)
    requires t.now >= 0 && Tallied(f, limit, start, total, later, Epoch(t))
    requires TrackSpec(f, t.amount, t.direction, t.now).Ok?
    ensures Tallied(TrackSpec(f, t.amount, t.direction, t.now).value, limit, start,
                    total + Signed(t.amount, t.direction), later, Epoch(t))
  {}

  lemma TalliedIsBounded(f: FlowState, limit: u64, start: int, total: int, later: nat, epoch: nat)
    requires Tallied(f, limit, start, total, later, epoch)
    ensures Within(total + start, Reach(limit, start) + Times(later, limit))
  {}

  lemma {:induction false} TransfersAreTallied(f: FlowState, limit: u64, transfers: seq<Transfer>)
    requires |transfers| > 0 && f.flowLimit == Some(limit) && ClockFrom(f, transfers)
    ensures Epoch(transfers[0]) <= Epoch(transfers[|transfers| - 1]) <= U64_MAX
    ensures Tallied(TrackAll(f, transfers), limit, f.At(Epoch(transfers[0])).Net(), NetBridged(f, transfers),
                    EpochsTouched(transfers) - 1, Epoch(transfers[|transfers| - 1]))
  {
    var n := |transfers| - 1;
    var t, earlier, start := transfers[n], transfers[..n], f.At(Epoch(transfers[0])).Net();
    if n == 0 {
      assert earlier == [];
      WindowBegins(f, limit, Epoch(t));
      OneMoreTransfer(f, limit, start, 0, 0, t);
    } else {
      TransfersAreTallied(f, limit, earlier);
      EpochsGrow(transfers[n - 1], t);
      var later := EpochsTouched(earlier) - 1;
      WindowMovesOn(TrackAll(f, earlier), limit, start, NetBridged(f, earlier), later, Epoch(transfers[n - 1]),
          Epoch(t));
      OneMoreTransfer(TrackAll(f, earlier), limit, start, NetBridged(f, earlier),
                      later + (Epoch(t) - Epoch(transfers[n - 1])), t);
    }
  }

  // A transfer that may be rejected.
  lemma OneMoreTransfer(f: FlowState, limit: u64, start: int, total: int, later: nat, t: Transfer)
    requires t.now >= 0 && Tallied(f, limit, start, total, later, Epoch(t))
    ensures var tracked := TrackSpec(f, t.amount, t.direction, t.now);
      Tallied(if tracked.Ok? then tracked.value else f, limit, start,
              total + if tracked.Ok? then Signed(t.amount, t.direction) else 0, later, Epoch(t))
  {
    if TrackSpec(f, t.amount, t.direction, t.now).Ok? {
      WindowTakesTransfer(f, limit, start, total, later, t);
    }
  }

  lemma EpochsGrow(a: Transfer, b: Transfer)
    requires 0 <= a.now <= b.now
    ensures Epoch(a) <= Epoch(b)
  {}

  // The net flow a window finds in its first epoch.
  function StartOf(f: FlowState, transfers: seq<Transfer>): int
    requires |transfers| > 0 && Epoch(transfers[0]) <= U64_MAX
  {
    f.At(Epoch(transfers[0])).Net()
  }

  /** The sharp bound, whatever the counters hold at first: while the limit stays the same, what a time window touching
      k epochs bridges, together with the net flow it started from,
          is within k - 1 limits and the reach of the start. */
  lemma SharpWindowBound(f: FlowState, limit: u64, transfers: seq<Transfer>) returns (k: nat)
    requires |transfers| > 0 && f.flowLimit == Some(limit) && ClockFrom(f, transfers)
    ensures Epoch(transfers[0]) <= Epoch(transfers[|transfers| - 1]) <= U64_MAX
    ensures k == EpochsTouched(transfers)
    ensures Within(NetBridged(f, transfers) + StartOf(f, transfers),
                   Reach(limit, StartOf(f, transfers)) + (k - 1) * limit)
  {
    TransfersAreTallied(f, limit, transfers);
    k := EpochsTouched(transfers);
    var last := Epoch(transfers[|transfers| - 1]);
    TalliedIsBounded(TrackAll(f, transfers), limit, StartOf(f, transfers), NetBridged(f, transfers), k - 1, last);
    TimesIsProduct(k - 1, limit);
  }

  lemma BoundsFromTheTally(f: FlowState, limit: u64, start: int, total: int, k: nat, epoch: nat)
    requires k > 0 && Within(start, limit) && Tallied(f, limit, start, total, k - 1, epoch)
    ensures Within(total + start, Times(k, limit)) && Within(total, Times(k + 1, limit))
    ensures start == 0 ==> Within(total, Times(k, limit))
  {
    TalliedIsBounded(f, limit, start, total, k - 1, epoch);
  }

  /** The window bounds. A window touching k epochs that starts within the limit bridges, together with its start, at
      most k limits; so at most k + 1 limits by itself, and at most k if it starts with no net flow. The net flow of the
      running epoch stays within the limit. */
  lemma WindowBound(f: FlowState, limit: u64, transfers: seq<Transfer>) returns (k: nat)
    requires |transfers| > 0 && f.flowLimit == Some(limit) && ClockFrom(f, transfers)
    requires Epoch(transfers[0]) <= U64_MAX && Within(StartOf(f, transfers), limit)
    ensures Epoch(transfers[0]) <= Epoch(transfers[|transfers| - 1]) <= U64_MAX
    ensures k == EpochsTouched(transfers)
    ensures Within(NetBridged(f, transfers) + StartOf(f, transfers), k * limit)
    ensures Within(NetBridged(f, transfers), (k + 1) * limit)
    ensures StartOf(f, transfers) == 0 ==> Within(NetBridged(f, transfers), k * limit)
    ensures Within(TrackAll(f, transfers).At(Epoch(transfers[|transfers| - 1])).Net(), limit)
  {
    TransfersAreTallied(f, limit, transfers);
    k := EpochsTouched(transfers);
    var last := Epoch(transfers[|transfers| - 1]);
    BoundsFromTheTally(TrackAll(f, transfers), limit, StartOf(f, transfers), NetBridged(f, transfers), k, last);
    TimesIsProduct(k, limit);
    TimesIsProduct(k + 1, limit);
  }

  /** A window starts with no net flow exactly when its first epoch is a new one or the counters of it are equal. */
  lemma StartsWithoutNetFlow(f: FlowState, transfers: seq<Transfer>)
    requires |transfers| > 0 && Epoch(transfers[0]) <= U64_MAX
    ensures StartOf(f, transfers) == 0 <==> f.epoch != Epoch(transfers[0]) || f.flowIn == f.flowOut
  {}

  // ---------- The bounds are reached ----------

  // The clock can show the epoch.
  predicate InTime(epoch: int) {
    0 <= epoch * EPOCH_TIME <= 0x7FFF_FFFF_FFFF_FFFF
  }

  // The beginning of an epoch.
  function TimeOf(epoch: nat): (now: i64)
    requires InTime(epoch)
    ensures now >= 0 && now / EPOCH_TIME == epoch
  {
    epoch * EPOCH_TIME
  }

  lemma LaterIsLater(a: nat, b: nat)
    requires a <= b && InTime(b)
    ensures InTime(a) && TimeOf(a) <= TimeOf(b)
  {}

  function Size(net: int): u64
    requires Within(net, U64_MAX)
  {
    if net < 0 then -net else net
  }

  // The direction that gives a net flow back.
  function Against(net: int): FlowDirection {
    if net < 0 then In else Out
  }

  // Gives the net flow of the first epoch back, and then moves one whole limit in each of n epochs.
  function Worst(f: FlowState, limit: u64, first: u64, n: nat): (transfers: seq<Transfer>)
    requires InTime(first + n)
    ensures |transfers| == n + 1
  {
    LaterIsLater(first, first + n);
    var start := f.At(first).Net();
    if n == 0 then [Transfer(Size(start), Against(start), TimeOf(first))]
    else
      LaterIsLater(first + n - 1, first + n);
      Worst(f, limit, first, n - 1) + [Transfer(limit, Against(start), TimeOf(first + n - 1))]
  }

  // The counters can take one limit more.
  predicate HasRoom(f: FlowState, limit: u64) {
    f.flowIn + limit <= U64_MAX && f.flowOut + limit <= U64_MAX
  }

  lemma AppendedTransfer(f: FlowState, earlier: seq<Transfer>, t: Transfer)
    requires TrackSpec(TrackAll(f, earlier), t.amount, t.direction, t.now).Ok?
    ensures TrackAll(f, earlier + [t]) == TrackSpec(TrackAll(f, earlier), t.amount, t.direction, t.now).value
    ensures NetBridged(f, earlier + [t]) == NetBridged(f, earlier) + Signed(t.amount, t.direction)
  {
    assert (earlier + [t])[..|earlier|] == earlier;
  }

  // The counters after the worst window so far.
  ghost predicate Emptied(f: FlowState, limit: u64, first: u64, n: nat) {
    && f.flowLimit == Some(limit)
    && if n == 0 then f.epoch == first && f.Net() == 0 && HasRoom(f, limit) else f.epoch == first + n - 1
  }

  // What the worst window has done after its first n limits.
  ghost predicate Reached(f: FlowState, window: seq<Transfer>, limit: u64, first: u64, n: nat) {
    && NetBridged(f, window) == Signed(Size(f.At(first).Net()) + Times(n, limit), Against(f.At(first).Net()))
    && Emptied(TrackAll(f, window), limit, first, n)
  }

  lemma {:induction false} WorstIsAccepted(f: FlowState, limit: u64, first: u64, n: nat)
    requires InTime(first + n)
    requires f.flowLimit == Some(limit) && Within(f.At(first).Net(), limit) && HasRoom(f.At(first), limit)
    ensures Reached(f, Worst(f, limit, first, n), limit, first, n)
  {
    LaterIsLater(first, first + n);
    if n == 0 {
      FirstIsAccepted(f, limit, first, TimeOf(first));
    } else {
      LaterIsLater(first + n - 1, first + n);
      WorstIsAccepted(f, limit, first, n - 1);
      NextIsAccepted(f, Worst(f, limit, first, n - 1), limit, first, n - 1, TimeOf(first + n - 1));
    }
  }

  lemma FirstIsAccepted(f: FlowState, limit: u64, first: u64, now: i64)
    requires now >= 0 && now / EPOCH_TIME == first
    requires f.flowLimit == Some(limit) && Within(f.At(first).Net(), limit) && HasRoom(f.At(first), limit)
    ensures Reached(f, [Transfer(Size(f.At(first).Net()), Against(f.At(first).Net()), now)], limit, first, 0)
  {
    var t := Transfer(Size(f.At(first).Net()), Against(f.At(first).Net()), now);
    GivingBackIsAccepted(f, limit, first, now);
    assert [] + [t] == [t] && TrackAll(f, []) == f;
    AppendedTransfer(f, [], t);
  }

  lemma NextIsAccepted(f: FlowState, earlier: seq<Transfer>, limit: u64, first: u64, n: nat, now: i64)
    requires now >= 0 && now / EPOCH_TIME == first + n && Reached(f, earlier, limit, first, n)
    ensures Reached(f, earlier + [Transfer(limit, Against(f.At(first).Net()), now)], limit, first, n + 1)
  {
    var direction := Against(f.At(first).Net());
    WholeLimitIsAccepted(TrackAll(f, earlier), limit, direction, first, n, now);
    AppendedTransfer(f, earlier, Transfer(limit, direction, now));
  }

  lemma GivingBackIsAccepted(f: FlowState, limit: u64, first: u64, now: i64)
    requires now >= 0 && now / EPOCH_TIME == first
    requires f.flowLimit == Some(limit) && Within(f.At(first).Net(), limit) && HasRoom(f.At(first), limit)
    ensures var start := f.At(first).Net();
      var tracked := TrackSpec(f, Size(start), Against(start), now);
      tracked.Ok? && Emptied(tracked.value, limit, first, 0)
  {}

  // A whole limit fits a new epoch, and one whose flows are even and leave room.
  lemma WholeLimitIsAccepted(f: FlowState, limit: u64, direction: FlowDirection, first: u64, n: nat, now: i64)
    requires now >= 0 && now / EPOCH_TIME == first + n && Emptied(f, limit, first, n)
    ensures var tracked := TrackSpec(f, limit, direction, now);
      tracked.Ok? && Emptied(tracked.value, limit, first, n + 1)
  {}

  // The windows that begin in one epoch and touch k of them.
  ghost predicate Window(f: FlowState, transfers: seq<Transfer>, first: u64, k: nat) {
    && |transfers| > 0 && ClockFrom(f, transfers) && Epoch(transfers[0]) == first
    && Epoch(transfers[|transfers| - 1]) + 1 == first + k
  }

  lemma {:induction false} TimesOfWorst(f: FlowState, limit: u64, first: u64, n: nat)
    requires InTime(first + n)
    ensures InTime(first)
    ensures forall i :: 0 <= i <= n ==>
      InTime(first + Later(i)) && Worst(f, limit, first, n)[i].now == TimeOf(first + Later(i))
  {
    LaterIsLater(first, first + n);
    if n == 0 {
    } else {
      LaterIsLater(first + n - 1, first + n);
      TimesOfWorst(f, limit, first, n - 1);
    }
  }

  // How many epochs after the first the i-th transfer of the worst window is.
  function Later(i: nat): nat {
    if i == 0 then 0 else i - 1
  }

  lemma WorstIsAWindow(f: FlowState, limit: u64, first: u64, k: nat)
    requires k > 0 && InTime(first + k) && f.epoch <= first
    ensures Window(f, Worst(f, limit, first, k), first, k)
  {
    var window := Worst(f, limit, first, k);
    TimesOfWorst(f, limit, first, k);
    forall i, j | 0 <= i < j < |window|
      ensures window[i].now <= window[j].now
    {
      LaterIsLater(first + Later(i), first + Later(j));
    }
  }

  /** The sharp bound is reached for every limit, every start within it, every first epoch and every k, as long as the
      counters have room for one more limit: some window touching k epochs bridges k limits against its start. */
  lemma WindowBoundIsTight(f: FlowState, limit: u64, first: u64, k: nat) returns (transfers: seq<Transfer>)
    requires k > 0 && InTime(first + k) && f.epoch <= first
    requires f.flowLimit == Some(limit) && Within(f.At(first).Net(), limit) && HasRoom(f.At(first), limit)
    ensures Window(f, transfers, first, k)
    ensures NetBridged(f, transfers) + f.At(first).Net() == if f.At(first).Net() < 0 then k * limit else -(k * limit)
  {
    transfers := Worst(f, limit, first, k);
    WorstIsAWindow(f, limit, first, k);
    WorstIsAccepted(f, limit, first, k);
    TimesIsProduct(k, limit);
  }

  /** When k limits do bound what every window of k epochs bridges by itself: if and only if the first epoch starts with
      no net flow. */
  lemma LimitsAloneBoundTheWindow(f: FlowState, limit: u64, first: u64, k: nat)
    requires k > 0 && InTime(first + k) && f.epoch <= first
    requires f.flowLimit == Some(limit) && Within(f.At(first).Net(), limit) && HasRoom(f.At(first), limit)
    ensures (forall transfers :: Window(f, transfers, first, k) ==> Within(NetBridged(f, transfers), k * limit))
      <==> f.At(first).Net() == 0
  {
    if f.At(first).Net() == 0 {
      forall transfers | Window(f, transfers, first, k)
        ensures Within(NetBridged(f, transfers), k * limit)
      {
        var touched := WindowBound(f, limit, transfers);
        assert touched == k;
      }
    } else {
      var transfers := WindowBoundIsTight(f, limit, first, k);
      assert !Within(NetBridged(f, transfers), k * limit);
    }
  }

  /** Transfers made while there is no limit leave no trace, so a limit set for the first time starts within itself. */
  lemma {:induction false} FirstLimitStartsWithinItself(transfers: seq<Transfer>, limit: u64)
    ensures TrackAll(FlowState(None, 0, 0, 0), transfers) == FlowState(None, 0, 0, 0)
    ensures WithinLimit(TrackAll(FlowState(None, 0, 0, 0), transfers).(flowLimit := Some(limit)), limit)
  {
    if |transfers| == 0 {
    } else {
      FirstLimitStartsWithinItself(transfers[..|transfers| - 1], limit);
    }
  }
}
