/**
  The order book of one symbol as a value: two price-to-size maps, the update
  ids they stand at and the readiness flags. The functions say what one
  snapshot, one delta or one reset makes of such a value, without an index.
 */
module BookModel {
  import opened Options
  import opened PriceIndex

  datatype ErrorCode =
    | InvalidPriceLevel | NonFinitePrice | NegativePrice
    | InvalidSizeLevel | NonFiniteSize | NegativeSize
    | BookEmpty | OneSideMissing | BestBidMissing | BestAskMissing | CrossedBook
    | SnapshotInconsistent | SequenceGapOrReset | SampleBeforeBookReady | DuplicateUpdate
    | PreviousFinalUpdateIdMismatch | StaleBook | QueueLagExceeded
    | ReportedBestBidMismatch | ReportedBestAskMismatch

  // ---- Levels as they arrive ----

  /** A field as `Decimal(str(value))` reads it. */
  datatype RawNumber = Unparseable | NonFinite | Finite(value: real)

  datatype RawLevel = MalformedRow | Row(price: RawNumber, size: RawNumber)

  function PriceErrors(price: RawNumber): set<ErrorCode> {
    match price
    case Unparseable => {InvalidPriceLevel}
    case NonFinite => {NonFinitePrice, InvalidPriceLevel}
    case Finite(v) => if v <= 0.0 then {NegativePrice, InvalidPriceLevel} else {}
  }

  function SizeErrors(size: RawNumber, allowZero: bool): set<ErrorCode> {
    match size
    case Unparseable => {InvalidSizeLevel}
    case NonFinite => {NonFiniteSize, InvalidSizeLevel}
    case Finite(v) => if v < 0.0 || (v == 0.0 && !allowZero) then {NegativeSize, InvalidSizeLevel} else {}
  }

  function RowErrors(row: RawLevel, allowZero: bool): set<ErrorCode> {
    match row
    case MalformedRow => {InvalidPriceLevel, InvalidSizeLevel}
    case Row(price, size) => PriceErrors(price) + SizeErrors(size, allowZero)
  }

  ghost function LevelErrors(rows: seq<RawLevel>, allowZero: bool): set<ErrorCode> {
    set row, code | row in rows && code in RowErrors(row, allowZero) :: code
  }

  ghost predicate Clean(rows: seq<RawLevel>, allowZero: bool) {
    forall i :: 0 <= i < |rows| ==> RowErrors(rows[i], allowZero) == {}
  }

  /** The rows that parse, in order. */
  function Parsed(rows: seq<RawLevel>, allowZero: bool): seq<Level> {
    if rows == [] then []
    else
      var last := rows[|rows| - 1];
      Parsed(rows[..|rows| - 1], allowZero)
      + if RowErrors(last, allowZero) == {} then [Level(last.price.value, last.size.value)] else []
  }

  method ParseLevels(rows: seq<RawLevel>, allowZero: bool) returns (parsed: seq<Level>, errors: set<ErrorCode>)
    ensures parsed == Parsed(rows, allowZero)
    ensures errors == LevelErrors(rows, allowZero)
    ensures errors == {} <==> Clean(rows, allowZero)
  {
    parsed, errors := [], {};
    for i := 0 to |rows|
      invariant parsed == Parsed(rows[..i], allowZero)
      invariant forall code :: code in errors <==> exists k :: 0 <= k < i && code in RowErrors(rows[k], allowZero)
    {
      assert rows[..i + 1][..i] == rows[..i];
      match rows[i]
      case MalformedRow =>
        errors := errors + {InvalidPriceLevel, InvalidSizeLevel};
      case Row(price, size) =>
        var priceErrors := PriceErrors(price);
        var sizeErrors := SizeErrors(size, allowZero);
        errors := errors + priceErrors + sizeErrors;
        if priceErrors == {} && sizeErrors == {} {
          parsed := parsed + [Level(price.value, size.value)];
        }
    }
    assert rows[..|rows|] == rows;
    if errors == {} {
      forall i | 0 <= i < |rows| ensures RowErrors(rows[i], allowZero) == {} {
        forall code ensures code !in RowErrors(rows[i], allowZero) {}
      }
    }
  }

  method ParseSides(bids: seq<RawLevel>, asks: seq<RawLevel>, allowZero: bool)
    returns (parsedBids: seq<Level>, parsedAsks: seq<Level>, errors: set<ErrorCode>)
    ensures parsedBids == Parsed(bids, allowZero) && parsedAsks == Parsed(asks, allowZero)
    ensures errors == LevelErrors(bids, allowZero) + LevelErrors(asks, allowZero)
    ensures errors == {} <==> Clean(bids, allowZero) && Clean(asks, allowZero)
  {
    var bidErrors, askErrors;
    parsedBids, bidErrors := ParseLevels(bids, allowZero);
    parsedAsks, askErrors := ParseLevels(asks, allowZero);
    errors := bidErrors + askErrors;
    assert bidErrors <= errors && askErrors <= errors;
  }

  // ---- The state ----

  datatype BookState = BookState(
    bids: Sizes,
    asks: Sizes,
    snapshotReady: bool,
    readyToEmit: bool,
    sequenceContinuous: bool,
    awaitingBridge: bool,
    lastUpdateId: Option<int>,
    snapshotLastUpdateId: Option<int>,
    gapBoundary: Option<int>,
    stateVersion: nat,
    generation: nat,
    lastBookUpdateNs: Option<int>)

  const FRESH := BookState(map[], map[], false, false, false, false, None, None, None, 0, 0, None)

  datatype DepthEvent = DepthEvent(
    first: int,
    final: int,
    prevFinal: Option<int>,
    bids: seq<RawLevel>,
    asks: seq<RawLevel>,
    recvNs: int)

  ghost predicate CleanEvent(e: DepthEvent) {
    Clean(e.bids, true) && Clean(e.asks, true)
  }

  // ---- Errors of a whole book ----

  /** Some bid reaches some ask. */
  ghost predicate Crossed(bids: Sizes, asks: Sizes) {
    exists p, q :: p in bids && q in asks && p >= q
  }

  ghost predicate HasBookError(bids: Sizes, asks: Sizes, code: ErrorCode) {
    match code
    case InvalidPriceLevel => exists p :: (p in bids || p in asks) && p <= 0.0
    case NegativePrice => exists p :: (p in bids || p in asks) && p <= 0.0
    case InvalidSizeLevel => (exists p :: p in bids && bids[p] <= 0.0) || (exists p :: p in asks && asks[p] <= 0.0)
    case NegativeSize => (exists p :: p in bids && bids[p] <= 0.0) || (exists p :: p in asks && asks[p] <= 0.0)
    case BookEmpty => |bids| == 0 && |asks| == 0
    case OneSideMissing => |bids| == 0 || |asks| == 0
    case BestBidMissing => |bids| == 0
    case BestAskMissing => |asks| == 0
    case CrossedBook => Crossed(bids, asks)
    case _ => false
  }

  /** `validate()` of a whole book. */
  ghost function BookErrors(bids: Sizes, asks: Sizes): set<ErrorCode> {
    set code: ErrorCode | HasBookError(bids, asks, code)
  }

  /** The gate every emitted sample passes. */
  ghost predicate MayEmit(s: BookState) {
    s.snapshotReady && s.sequenceContinuous && !s.awaitingBridge && BookErrors(s.bids, s.asks) == {}
  }

  // ---- Readiness ----

  /** Fails closed: nothing is emitted again before a fresh snapshot and its bridging delta. */
  function WithNotReady(s: BookState, advanceGeneration: bool, boundary: Option<int>): BookState {
    s.(snapshotReady := false,
       readyToEmit := false,
       sequenceContinuous := false,
       awaitingBridge := false,
       generation := if advanceGeneration then s.generation + 1 else s.generation,
       gapBoundary := if boundary.Some? then boundary else s.gapBoundary)
  }

  ghost function WithReadyRefreshed(s: BookState): BookState {
    s.(readyToEmit := MayEmit(s))
  }

  function Cleaned(s: BookState): BookState {
    s.(bids := map[], asks := map[], snapshotReady := false, readyToEmit := false,
       sequenceContinuous := false, awaitingBridge := false)
  }

  // ---- Snapshots and deltas ----

  datatype ApplyStatus =
    | SnapshotLoaded | StaleSnapshotGeneration | StaleSnapshotBeforeGapBoundary | SnapshotInvalidLevels
    | DeltaApplied | DeltaBeforeSnapshot | DuplicateDelta | PreviousIdMismatch
    | BridgeFailed | SequenceGap | InvalidDeltaLevels

  predicate Accepts(status: ApplyStatus) {
    status == SnapshotLoaded || status == DeltaApplied
  }

  datatype ApplyResult = ApplyResult(
    accepted: bool,
    status: ApplyStatus,
    errors: set<ErrorCode>,
    previousLast: Option<int>,
    expectedNext: Option<int>)

  ghost function SnapshotStatus(s: BookState, bids: seq<RawLevel>, asks: seq<RawLevel>, id: int,
                                generation: Option<int>): ApplyStatus {
    if generation.Some? && generation.value != s.generation then StaleSnapshotGeneration
    else if s.gapBoundary.Some? && id <= s.gapBoundary.value then StaleSnapshotBeforeGapBoundary
    else if !Clean(bids, false) || !Clean(asks, false) then SnapshotInvalidLevels
    else SnapshotLoaded
  }

  /** The book a snapshot leaves: not yet live, it waits for the delta that bridges its id. */
  function Loaded(s: BookState, bids: seq<RawLevel>, asks: seq<RawLevel>, id: int, nowNs: int): BookState {
    s.(bids := WithLevels(map[], Parsed(bids, false)),
       asks := WithLevels(map[], Parsed(asks, false)),
       snapshotReady := true,
       sequenceContinuous := false,
       awaitingBridge := true,
       readyToEmit := false,
       lastUpdateId := Some(id),
       snapshotLastUpdateId := Some(id),
       gapBoundary := None,
       lastBookUpdateNs := Some(nowNs),
       stateVersion := s.stateVersion + 1)
  }

  ghost function AfterSnapshot(s: BookState, bids: seq<RawLevel>, asks: seq<RawLevel>, id: int, nowNs: int,
                               generation: Option<int>): BookState {
    match SnapshotStatus(s, bids, asks, id, generation)
    case SnapshotInvalidLevels => WithNotReady(s, false, None)
    case SnapshotLoaded => Loaded(s, bids, asks, id, nowNs)
    case _ => s
  }

  ghost function SnapshotErrors(status: ApplyStatus, bids: seq<RawLevel>, asks: seq<RawLevel>): set<ErrorCode> {
    match status
    case StaleSnapshotGeneration => {SnapshotInconsistent}
    case StaleSnapshotBeforeGapBoundary => {SequenceGapOrReset}
    case SnapshotInvalidLevels => LevelErrors(bids, false) + LevelErrors(asks, false)
    case _ => {}
  }

  ghost function SnapshotResult(s: BookState, bids: seq<RawLevel>, asks: seq<RawLevel>, id: int,
                                generation: Option<int>): ApplyResult {
    var status := SnapshotStatus(s, bids, asks, id, generation);
    ApplyResult(Accepts(status), status, SnapshotErrors(status, bids, asks), s.lastUpdateId, None)
  }

  ghost function DeltaStatus(s: BookState, e: DepthEvent): ApplyStatus {
    if !s.snapshotReady || s.lastUpdateId.None? then DeltaBeforeSnapshot
    else if e.final <= s.lastUpdateId.value then DuplicateDelta
    else if e.prevFinal.Some? && e.prevFinal.value != s.lastUpdateId.value then PreviousIdMismatch
    else if s.awaitingBridge
            && !(s.snapshotLastUpdateId.Some? && e.first <= s.snapshotLastUpdateId.value + 1 <= e.final) then BridgeFailed
    else if !s.awaitingBridge && e.first != s.lastUpdateId.value + 1 then SequenceGap
    else if !CleanEvent(e) then InvalidDeltaLevels
    else DeltaApplied
  }

  /** The book with the delta's levels in it, standing at the delta's last id. */
  function Advanced(s: BookState, e: DepthEvent): BookState {
    s.(bids := WithLevels(s.bids, Parsed(e.bids, true)),
       asks := WithLevels(s.asks, Parsed(e.asks, true)),
       lastUpdateId := Some(e.final),
       lastBookUpdateNs := Some(e.recvNs),
       awaitingBridge := false,
       sequenceContinuous := true,
       stateVersion := s.stateVersion + 1)
  }

  ghost function AfterDelta(s: BookState, e: DepthEvent): BookState {
    match DeltaStatus(s, e)
    case DeltaBeforeSnapshot => s
    case DuplicateDelta => s
    case DeltaApplied => WithReadyRefreshed(Advanced(s, e))
    case _ => WithNotReady(s, true, Some(e.final))
  }

  ghost function DeltaErrors(status: ApplyStatus, e: DepthEvent): set<ErrorCode> {
    match status
    case DeltaBeforeSnapshot => {SampleBeforeBookReady}
    case DuplicateDelta => {DuplicateUpdate}
    case PreviousIdMismatch => {PreviousFinalUpdateIdMismatch}
    case BridgeFailed => {SequenceGapOrReset}
    case SequenceGap => {SequenceGapOrReset}
    case InvalidDeltaLevels => LevelErrors(e.bids, true) + LevelErrors(e.asks, true)
    case _ => {}
  }

  ghost function DeltaResult(s: BookState, e: DepthEvent): ApplyResult {
    var status := DeltaStatus(s, e);
    ApplyResult(Accepts(status), status, DeltaErrors(status, e), s.lastUpdateId,
                if status == DeltaBeforeSnapshot || s.lastUpdateId.None? then None else Some(s.lastUpdateId.value + 1))
  }
}
