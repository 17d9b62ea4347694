/** The pure helpers of the robots page (src/routes/robots.tsx): which
    persisted data the loader accepts, the window of pick-up suggestions,
    where a drop-off command sends the robot, the checks before a command
    is issued, and the unsaved-changes test. */
module RobotsRoute {
  import opened Wrappers
  import opened Numeric
  import opened Constants
  import opened Text
  import opened StoreTypes
  import opened MockData
  import TaskSimulation

  // ---------------------------------------------------------------------
  // Loader

  const DEFAULT_PRODUCT_COUNT: int := 20000
  const DEFAULT_ROBOT_COUNT: int := 30

  /** The stored configuration as the loader reads it; every layout field
      may be missing. */
  datatype SavedConfig = SavedConfig(
    productCount: int,
    robotCount: int,
    trackedRobotId: Option<string>,
    pickupProductId: Option<string>,
    dropAisle: Option<int>,
    dropProgress: Option<real>,
    aisleCount: Option<int>,
    aisleSpacing: Option<real>,
    aisleWidth: Option<real>,
    startOffset: Option<real>,
    walkwayWidth: Option<real>,
    crossAisleBuffer: Option<real>,
    outerWalkwayOffset: Option<real>,
    storeWidth: Option<real>,
    storeHeight: Option<real>,
    orientation: Option<Orientation>)

  /** What the loader hands to the page. */
  datatype LoaderData = LoaderData(
    productCount: int,
    robotCount: int,
    trackedRobotId: Option<string>,
    pickupProductId: Option<string>,
    dropAisle: Option<int>,
    dropProgress: Option<real>,
    aisleConfig: AisleConfig,
    products: seq<Product>,
    isPersisted: bool)

  /** Stored data is used only when a configuration exists and the stored
      products are non-empty and exactly as many as it says. */
  predicate AcceptsStored(config: Option<SavedConfig>, products: seq<Product>) {
    config.Some? && |products| > 0 && |products| == config.value.productCount
  }

  /** The stored layout, each missing field taken from `defaults`. */
  function StoredLayout(s: SavedConfig, defaults: AisleConfig): (c: AisleConfig)
    ensures s.aisleCount.Some? ==> c.count == s.aisleCount.value
    ensures s.aisleCount.None? ==> c.count == defaults.count
    ensures s.storeWidth.Some? ==> c.storeWidth == s.storeWidth.value
    ensures s.storeWidth.None? ==> c.storeWidth == defaults.storeWidth
    ensures s.storeHeight.Some? ==> c.storeHeight == s.storeHeight.value
    ensures s.storeHeight.None? ==> c.storeHeight == defaults.storeHeight
    ensures s.orientation.Some? ==> c.orientation == s.orientation.value
    ensures s.orientation.None? ==> c.orientation == defaults.orientation
  {
    AisleConfig(
      s.aisleCount.GetOr(defaults.count),
      s.aisleSpacing.GetOr(defaults.spacing),
      s.aisleWidth.GetOr(defaults.width),
      s.startOffset.GetOr(defaults.startOffset),
      s.walkwayWidth.GetOr(defaults.walkwayWidth),
      s.crossAisleBuffer.GetOr(defaults.crossAisleBuffer),
      s.outerWalkwayOffset.GetOr(defaults.outerWalkwayOffset),
      s.storeWidth.GetOr(defaults.storeWidth),
      s.storeHeight.GetOr(defaults.storeHeight),
      s.orientation.GetOr(defaults.orientation))
  }

  /** A stored configuration with every layout field present is restored
      exactly. */
  lemma StoredLayoutComplete(s: SavedConfig, defaults: AisleConfig, c: AisleConfig)
    requires s.aisleCount == Some(c.count) && s.aisleSpacing == Some(c.spacing)
    requires s.aisleWidth == Some(c.width) && s.startOffset == Some(c.startOffset)
    requires s.walkwayWidth == Some(c.walkwayWidth) && s.crossAisleBuffer == Some(c.crossAisleBuffer)
    requires s.outerWalkwayOffset == Some(c.outerWalkwayOffset)
    requires s.storeWidth == Some(c.storeWidth) && s.storeHeight == Some(c.storeHeight)
    requires s.orientation == Some(c.orientation)
    ensures StoredLayout(s, defaults) == c
  {
  }

  /** The route's loader. `config` is `None` both when nothing is stored
      and when fetching it fails; `g0` is the random stream the default
      product generator draws from. */
  method Load(config: Option<SavedConfig>, stored: seq<Product>, defaults: AisleConfig, g0: Rng)
    returns (d: LoaderData, g: Rng)
    ensures AcceptsStored(config, stored) ==>
      d == LoaderData(config.value.productCount, config.value.robotCount,
                      config.value.trackedRobotId, config.value.pickupProductId,
                      config.value.dropAisle, config.value.dropProgress,
                      StoredLayout(config.value, defaults), stored, true)
    ensures !AcceptsStored(config, stored) ==>
      d.productCount == DEFAULT_PRODUCT_COUNT && d.robotCount == DEFAULT_ROBOT_COUNT &&
      d.trackedRobotId.None? && d.pickupProductId.None? &&
      d.dropAisle.None? && d.dropProgress.None? &&
      d.aisleConfig == defaults && !d.isPersisted &&
      forall k :: 0 <= k < |d.products| ==>
        d.products[k] == ProductFromStream(defaults, DEFAULT_PRODUCT_COUNT, k, g0)
    ensures d.isPersisted <==> AcceptsStored(config, stored)
    ensures |d.products| == d.productCount > 0
  {
    if AcceptsStored(config, stored) {
      var s := config.value;
      d := LoaderData(s.productCount, s.robotCount, s.trackedRobotId, s.pickupProductId,
                      s.dropAisle, s.dropProgress, StoredLayout(s, defaults), stored, true);
      g := g0;
    } else {
      var products;
      products, g := GenerateProducts(DEFAULT_PRODUCT_COUNT, defaults, g0);
      d := LoaderData(DEFAULT_PRODUCT_COUNT, DEFAULT_ROBOT_COUNT, None, None, None, None,
                      defaults, products, false);
    }
  }

  // ---------------------------------------------------------------------
  // Pick-up suggestions

  const MAX_SUGGESTIONS: int := 200

  /** The characters `String.prototype.trim` removes: the ECMAScript
      white space and line terminators. */
  predicate IsJsSpace(c: char) {
    ('\U{0009}' <= c <= '\U{000D}') || c == '\U{0020}' || c == '\U{00A0}' ||
    c == '\U{1680}' || ('\U{2000}' <= c <= '\U{200A}') || c == '\U{2028}' ||
    c == '\U{2029}' || c == '\U{202F}' || c == '\U{205F}' || c == '\U{3000}' ||
    c == '\U{FEFF}'
  }

  /** How many white-space characters `s` starts with. */
  function LeadingSpaces(s: string): (a: nat)
    ensures a <= |s|
    ensures forall i :: 0 <= i < a ==> IsJsSpace(s[i])
    ensures a < |s| ==> !IsJsSpace(s[a])
  {
    if |s| > 0 && IsJsSpace(s[0]) then 1 + LeadingSpaces(s[1..]) else 0
  }

  /** How many white-space characters `s` ends with. */
  function TrailingSpaces(s: string): (b: nat)
    ensures b <= |s|
    ensures forall i :: |s| - b <= i < |s| ==> IsJsSpace(s[i])
    ensures b < |s| ==> !IsJsSpace(s[|s| - b - 1])
  {
    if |s| > 0 && IsJsSpace(s[|s| - 1]) then 1 + TrailingSpaces(s[..|s| - 1]) else 0
  }

  /** `trim()`: the string without its leading and trailing white space. */
  function Trim(s: string): (r: string)
    ensures |r| > 0 ==> !IsJsSpace(r[0]) && !IsJsSpace(r[|r| - 1])
    ensures LeadingSpaces(s) + |r| <= |s|
    ensures r == s[LeadingSpaces(s)..LeadingSpaces(s) + |r|]
    ensures forall i :: LeadingSpaces(s) + |r| <= i < |s| ==> IsJsSpace(s[i])
  {
    var a := LeadingSpaces(s);
    var b := TrailingSpaces(s);
    if a == |s| then []
    else
      assert !IsJsSpace(s[a]);
      assert a < |s| - b;
      s[a..|s| - b]
  }

  /** A string that neither starts nor ends with white space is its own
      trim. */
  lemma TrimOfTrimmed(s: string)
    requires |s| > 0 ==> !IsJsSpace(s[0]) && !IsJsSpace(s[|s| - 1])
    ensures Trim(s) == s
  {
  }

  /** Upper-casing of ASCII letters, the canonical form a case-insensitive
      pattern compares (only ASCII letters can fold onto the ASCII letters
      of the pattern). */
  function AsciiUpper(c: char): char {
    if 'a' <= c <= 'z' then (c as int - 32) as char else c
  }

  const PRODUCT_PREFIX_UPPER: string := "PRODUCT-"

  /** `s` starts with `product-` in any mix of letter cases. */
  predicate HasProductPrefix(s: string) {
    |s| >= 8 && forall i :: 0 <= i < 8 ==> AsciiUpper(s[i]) == PRODUCT_PREFIX_UPPER[i]
  }

  /** The longest run of decimal digits at the start of `s` (`\d+` is
      greedy). */
  function LeadingDigits(s: string): (r: string)
    ensures |r| <= |s| && r == s[..|r|]
    ensures forall i :: 0 <= i < |r| ==> IsDigit(r[i])
    ensures |r| < |s| ==> !IsDigit(s[|r|])
  {
    if |s| > 0 && IsDigit(s[0]) then [s[0]] + LeadingDigits(s[1..]) else []
  }

  /** `/^product-(\d+)/i` applied to the trimmed entry, and `Number` of the
      digits: the product number the entry names, if any. */
  function RequestedIndex(pickup: string): (n: Option<nat>)
    ensures n.Some? ==> HasProductPrefix(Trim(pickup))
  {
    var t := Trim(pickup);
    if HasProductPrefix(t) && |t| > 8 && IsDigit(t[8]) then
      Some(DecimalValue(LeadingDigits(t[8..])))
    else
      None
  }

  /** An entry with the `product-` prefix and a digit string. */
  lemma ProductIdShape(digits: string)
    requires |digits| >= 1 && forall i :: 0 <= i < |digits| ==> IsDigit(digits[i])
    ensures var id := "product-" + digits;
      HasProductPrefix(id) && |id| > 8 && IsDigit(id[8]) && id[8..] == digits &&
      !IsJsSpace(id[0]) && !IsJsSpace(id[|id| - 1])
  {
    var id := "product-" + digits;
    assert id[8..] == digits;
    assert id[|id| - 1] == digits[|digits| - 1];
    assert forall i :: 0 <= i < 8 ==> id[i] == "product-"[i];
  }

  /** The entry `product-n` names product `n`. */
  lemma RequestedIndexOfId(n: nat)
    ensures RequestedIndex(Tagged("product-", n)) == Some(n)
  {
    var digits := NatToDecimal(n);
    var id := "product-" + digits;
    assert Tagged("product-", n) == id;
    ProductIdShape(digits);
    TrimOfTrimmed(id);
    assert LeadingDigits(digits) == digits;
    DecimalRoundTrip(n);
    assert RequestedIndex(id) == Some(DecimalValue(LeadingDigits(id[8..])));
  }

  /** `Array.prototype.slice(start, end)` for non-negative bounds. */
  function JsSlice<T>(s: seq<T>, start: int, end: int): (r: seq<T>)
    requires 0 <= start && 0 <= end
    ensures |r| == MaxInt(0, MinInt(end, |s|) - MinInt(start, |s|))
    ensures forall i :: 0 <= i < |r| ==> start + i < |s| && r[i] == s[start + i]
  {
    var from, to := MinInt(start, |s|), MinInt(end, |s|);
    if from < to then s[from..to] else []
  }

  /** Where the suggestion window begins. */
  function SuggestionStart(pickup: string): nat {
    match RequestedIndex(pickup)
    case Some(n) => MaxInt(0, n - MAX_SUGGESTIONS / 2)
    case None => 0
  }

  /** `pickupSuggestions`: up to 200 consecutive products; for an entry
      naming product `n` the window starts 100 before it, otherwise at the
      first product. */
  function PickupSuggestions(products: seq<Product>, pickup: string): (r: seq<Product>)
    ensures |r| <= MAX_SUGGESTIONS
    ensures forall i :: 0 <= i < |r| ==>
      SuggestionStart(pickup) + i < |products| && r[i] == products[SuggestionStart(pickup) + i]
    ensures SuggestionStart(pickup) < |products| ==>
      |r| == MinInt(MAX_SUGGESTIONS, |products| - SuggestionStart(pickup))
    ensures SuggestionStart(pickup) >= |products| ==> r == []
  {
    if |products| == 0 then []
    else
      var start := SuggestionStart(pickup);
      match RequestedIndex(pickup)
      case Some(n) => JsSlice(products, start, MinInt(|products|, start + MAX_SUGGESTIONS))
      case None => JsSlice(products, 0, MinInt(|products|, MAX_SUGGESTIONS))
  }

  /** An entry naming an existing product number puts that product in the
      list. */
  lemma RequestedProductSuggested(products: seq<Product>, pickup: string, n: nat)
    requires RequestedIndex(pickup) == Some(n) && n < |products|
    ensures SuggestionStart(pickup) <= n < SuggestionStart(pickup) + |PickupSuggestions(products, pickup)|
    ensures PickupSuggestions(products, pickup)[n - SuggestionStart(pickup)] == products[n]
  {
  }

  /** For the generated catalogue, typing a product's id lists that
      product. */
  lemma GeneratedIdSuggested(c: AisleConfig, count: int, products: seq<Product>, g0: Rng, n: nat)
    requires forall k :: 0 <= k < |products| ==> products[k] == ProductFromStream(c, count, k, g0)
    requires n < |products|
    ensures products[n] in PickupSuggestions(products, products[n].id)
  {
    assert products[n].id == Tagged("product-", n);
    RequestedIndexOfId(n);
    RequestedProductSuggested(products, products[n].id, n);
  }

  // ---------------------------------------------------------------------
  // Drop target

  /** The aisle a drop is sent to, clamped to `[1, count]` (to `count` when
      there are no aisles). */
  function ClampedAisle(aisleNumber: int, c: AisleConfig): (a: int)
    ensures c.count >= 1 ==> 1 <= a <= c.count
    ensures 1 <= aisleNumber <= c.count ==> a == aisleNumber
  {
    MinInt(MaxInt(aisleNumber, 1), c.count)
  }

  /** The fraction along the aisle, from a percentage clamped to
      `[0, 100]`. */
  function DropRatio(positionPercent: real): (t: real)
    ensures 0.0 <= t <= 1.0
    ensures 0.0 <= positionPercent <= 100.0 ==> t == positionPercent / 100.0
  {
    Min(Max(positionPercent, 0.0), 100.0) / 100.0
  }

  /** The drop point before orientation: on the clamped aisle's centre
      line, 15 units in from either end of the store. */
  function DropPoint(aisleNumber: int, positionPercent: real, c: AisleConfig): (p: Point)
    ensures p.x == GetAisleCenterCoord(ClampedAisle(aisleNumber, c) - 1, c)
    ensures c.storeHeight >= 30.0 ==>
      -c.storeHeight / 2.0 + 15.0 <= p.y <= c.storeHeight / 2.0 - 15.0
  {
    var t := DropRatio(positionPercent);
    var span := c.storeHeight - 30.0;
    assert c.storeHeight >= 30.0 ==> 0.0 <= t * span <= span by {
      if c.storeHeight >= 30.0 {
        MulNonneg(t, span);
        assert span - t * span == (1.0 - t) * span;
        MulNonneg(1.0 - t, span);
      }
    }
    Point(GetAisleCenterCoord(ClampedAisle(aisleNumber, c) - 1, c),
          -c.storeHeight / 2.0 + 15.0 + t * span)
  }

  /** 0% and 100% are the two ends of the usable aisle length. */
  lemma DropPointEnds(aisleNumber: int, c: AisleConfig)
    ensures DropPoint(aisleNumber, 0.0, c).y == -c.storeHeight / 2.0 + 15.0
    ensures DropPoint(aisleNumber, 100.0, c).y == c.storeHeight / 2.0 - 15.0
  {
  }

  /** Further along in percent is further along the aisle. */
  lemma DropPointMonotone(aisleNumber: int, p: real, q: real, c: AisleConfig)
    requires p <= q && c.storeHeight >= 30.0
    ensures DropPoint(aisleNumber, p, c).y <= DropPoint(aisleNumber, q, c).y
  {
    var tp, tq := DropRatio(p), DropRatio(q);
    assert tp <= tq;
    var span := c.storeHeight - 30.0;
    assert tq * span - tp * span == (tq - tp) * span;
    MulNonneg(tq - tp, span);
  }

  /** `computeDropTarget`: the drop point, swapped for horizontal aisles. */
  function ComputeDropTarget(aisleNumber: int, positionPercent: real, c: AisleConfig): (p: Point)
    ensures c.orientation == Vertical ==> p == DropPoint(aisleNumber, positionPercent, c)
    ensures c.orientation == Horizontal ==>
      p == Point(DropPoint(aisleNumber, positionPercent, c).y, DropPoint(aisleNumber, positionPercent, c).x)
  {
    var q := DropPoint(aisleNumber, positionPercent, c);
    TransformPosition(q.x, q.y, c.orientation)
  }

  // ---------------------------------------------------------------------
  // Sending a command

  /** The outcome of pressing "send": a new task, or the reason none was
      issued. */
  datatype CommandOutcome = Sent(task: Task) | NoRobot | ProductNotFound(productId: string)

  /** `trackedRobotId ?? initialRobots[0]?.id`. */
  function CommandRobot(trackedRobotId: Option<string>, robots: seq<Robot>): (id: Option<string>)
    ensures trackedRobotId.Some? ==> id == trackedRobotId
    ensures trackedRobotId.None? && |robots| > 0 ==> id == Some(robots[0].id)
    ensures trackedRobotId.None? && |robots| == 0 ==> id.None?
  {
    if trackedRobotId.Some? then trackedRobotId
    else if |robots| > 0 then Some(robots[0].id)
    else None
  }

  /** `products.find`: the first product with the id. */
  function FindProduct(products: seq<Product>, id: string): (p: Option<Product>)
    ensures p.Some? ==> p.value in products && p.value.id == id
    ensures p.None? <==> forall k :: 0 <= k < |products| ==> products[k].id != id
    ensures p.Some? ==>
      exists k :: 0 <= k < |products| && products[k] == p.value && forall j :: 0 <= j < k ==> products[j].id != id
  {
    if |products| == 0 then None
    else if products[0].id == id then Some(products[0])
    else
      var rest := FindProduct(products[1..], id);
      assert forall k :: 1 <= k < |products| ==> products[1..][k - 1] == products[k];
      rest
  }

  /** `handleSendCommand`. `idTime` and `issuedAt` are the two readings of
      the clock. An empty robot id is falsy and counts as no robot. */
  function SendCommand(trackedRobotId: Option<string>, robots: seq<Robot>, products: seq<Product>,
                       pickupProductId: string, dropAisle: int, dropProgress: real,
                       c: AisleConfig, idTime: nat, issuedAt: real): (r: CommandOutcome)
    ensures r == NoRobot <==>
      CommandRobot(trackedRobotId, robots).None? || CommandRobot(trackedRobotId, robots) == Some("")
    ensures r.ProductNotFound? ==>
      r.productId == pickupProductId &&
      forall k :: 0 <= k < |products| ==> products[k].id != pickupProductId
    ensures r.Sent? ==>
      Some(r.task.robotId) == CommandRobot(trackedRobotId, robots) && r.task.robotId != "" &&
      r.task.productId == pickupProductId &&
      (exists k :: 0 <= k < |products| && products[k].id == pickupProductId) &&
      r.task.id == Tagged("cmd-", idTime) &&
      r.task.dropTarget == ComputeDropTarget(dropAisle, dropProgress, c) &&
      r.task.phase == ToProduct && r.task.issuedAt == issuedAt &&
      r.task.waypoints.None? && r.task.waypointIndex.None? && r.task.waypointsTarget.None?
  {
    var robotId := CommandRobot(trackedRobotId, robots);
    var product := FindProduct(products, pickupProductId);
    if robotId.None? || robotId.value == "" then NoRobot
    else if product.None? then ProductNotFound(pickupProductId)
    else
      Sent(Task(Tagged("cmd-", idTime), robotId.value, product.value.id,
                ComputeDropTarget(dropAisle, dropProgress, c), ToProduct, issuedAt,
                None, None, None))
  }

  /** A command is issued exactly when there is a robot and the product
      exists. */
  lemma SendCommandIssues(trackedRobotId: Option<string>, robots: seq<Robot>, products: seq<Product>,
                          pickupProductId: string, dropAisle: int, dropProgress: real,
                          c: AisleConfig, idTime: nat, issuedAt: real)
    ensures SendCommand(trackedRobotId, robots, products, pickupProductId, dropAisle,
                        dropProgress, c, idTime, issuedAt).Sent? <==>
      (CommandRobot(trackedRobotId, robots).Some? && CommandRobot(trackedRobotId, robots) != Some("") &&
       exists k :: 0 <= k < |products| && products[k].id == pickupProductId)
  {
  }

  /** A freshly issued command carries no route, so the simulation plans
      one on its first tick, heading for the product. */
  lemma SentCommandIsPlanned(t: Task, robot: Robot)
    requires t.phase == ToProduct && t.waypoints.None?
    requires robot.task.None? || robot.task.value.id != t.id
    ensures TaskSimulation.ExistingTask(robot, t) == t
    ensures TaskSimulation.ShouldPlan(t, TaskSimulation.TargetKey(t))
  {
  }

  // ---------------------------------------------------------------------
  // Unsaved changes

  /** The settings the page compares against the last saved snapshot. */
  datatype Settings = Settings(
    productCount: int,
    robotCount: int,
    trackedRobotId: Option<string>,
    pickupProductId: string,
    dropAisle: int,
    dropProgress: real,
    aisleConfig: AisleConfig)

  /** `hasUnsavedChanges`: the six scalars, then the ten layout fields,
      compared one by one. */
  function HasUnsavedChanges(current: Settings, saved: Settings): (changed: bool)
    ensures !changed <==> current == saved
  {
    if current.productCount != saved.productCount then true
    else if current.robotCount != saved.robotCount then true
    else if current.trackedRobotId != saved.trackedRobotId then true
    else if current.pickupProductId != saved.pickupProductId then true
    else if current.dropAisle != saved.dropAisle then true
    else if current.dropProgress != saved.dropProgress then true
    else
      var p, n := saved.aisleConfig, current.aisleConfig;
      p.count != n.count || p.spacing != n.spacing || p.width != n.width ||
      p.startOffset != n.startOffset || p.walkwayWidth != n.walkwayWidth ||
      p.crossAisleBuffer != n.crossAisleBuffer || p.outerWalkwayOffset != n.outerWalkwayOffset ||
      p.storeWidth != n.storeWidth || p.storeHeight != n.storeHeight ||
      p.orientation != n.orientation
  }

  /** The snapshot a successful save records: the current settings, so
      right after saving nothing is unsaved; a failed save keeps the old
      snapshot. */
  function SnapshotAfterSave(current: Settings, snapshot: Settings, success: bool): (s: Settings)
    ensures success ==> !HasUnsavedChanges(current, s)
    ensures !success ==> s == snapshot
  {
    if success then current else snapshot
  }

  /** The comparison is symmetric: reverting to the saved settings clears
      the flag just as saving does. */
  lemma UnsavedChangesSymmetric(a: Settings, b: Settings)
    ensures HasUnsavedChanges(a, b) == HasUnsavedChanges(b, a)
  {
  }
}
