/** The layout of a batch: which label a worker has reached, and where the roll is
    cut (src/api/jobs.rs). */
module Batch {
  import opened Grids
  import opened Options

  const U8_MAX := 0xFF
  const U16_MAX := 0xFFFF

  // ---------------------------------------------------------------- the position in a batch

  /** An action of a print plan: the marker that opens a page, or anything else. */
  datatype Action = PageMarker | Other

  function Markers(plan: seq<Action>): nat {
    if plan == [] then 0
    else Markers(plan[..|plan| - 1]) + if plan[|plan| - 1].PageMarker? then 1 else 0
  }

  datatype Position = Position(item: nat, copy: nat)

  function AtLeastOne(n: nat): nat {
    if n == 0 then 1 else n
  }

  function Taken(plan: seq<Action>, last: nat): seq<Action> {
    if last + 1 <= |plan| then plan[..last + 1] else plan
  }

  /** The page the worker is on, counted from zero. */
  function Page(plan: seq<Action>, last: nat): nat {
    var count := Markers(Taken(plan, last));
    if count == 0 then 0 else count - 1
  }

  function PositionOfPage(page: nat, divisor: nat, lastItem: nat): Position
    requires divisor > 0
  {
    Position(if page / divisor < lastItem then page / divisor else lastItem, page % divisor)
  }

  function BatchPosition(plan: seq<Action>, last: Option<nat>, copies: nat, items: nat): Position {
    match last
    case None => Position(0, 0)
    case Some(last) =>
      var position := PositionOfPage(Page(plan, last), AtLeastOne(copies), AtLeastOne(items) - 1);
      if position.copy <= U16_MAX then position else position.(copy := 0)
  }

  /** The rasters in the order they are printed: every document `copies` times. */
  function Expand<T>(rasters: seq<T>, copies: nat): seq<T> {
    if rasters == [] then []
    else seq(copies, _ => rasters[0]) + Expand(rasters[1..], copies)
  }

  lemma {:induction false} ExpandAt<T>(rasters: seq<T>, copies: nat, item: nat, copy: nat)
    requires item < |rasters| && copy < copies
    ensures |Expand(rasters, copies)| == |rasters| * copies
    ensures item * copies + copy < |rasters| * copies
    ensures Expand(rasters, copies)[item * copies + copy] == rasters[item]
    decreases |rasters|
  {
    ExpandLength(rasters, copies);
    CellInside(copy, item, copies, |rasters|);
    if item > 0 {
      ExpandAt(rasters[1..], copies, item - 1, copy);
      assert item * copies + copy == copies + ((item - 1) * copies + copy);
    }
  }

  lemma {:induction false} ExpandLength<T>(rasters: seq<T>, copies: nat)
    ensures |Expand(rasters, copies)| == |rasters| * copies
  {
    if rasters != [] {
      ExpandLength(rasters[1..], copies);
      assert |rasters| * copies == copies + (|rasters| - 1) * copies;
    }
  }

  /** The page the markers count leads to the raster printed on it: on the k-th
      label, the item is the document whose raster stands there and the copy counts
      the labels of that document before it. */
  lemma PositionIsOnTheLabel<T>(plan: seq<Action>, last: nat, rasters: seq<T>, copies: nat)
    requires 0 < copies <= U16_MAX && 0 < Markers(Taken(plan, last)) <= |rasters| * copies
    ensures var k := Markers(Taken(plan, last)) - 1;
            var position := BatchPosition(plan, Some(last), copies, |rasters|);
            && position.item < |rasters| && position.copy < copies
            && k == position.item * copies + position.copy
            && k < |Expand(rasters, copies)|
            && Expand(rasters, copies)[k] == rasters[position.item]
  {
    hide Markers, Expand, Taken;
    var k := Markers(Taken(plan, last)) - 1;
    CellOf(k, copies, |rasters|);
    PageInBatch(k, copies, |rasters|);
    ExpandAt(rasters, copies, k / copies, k % copies);
  }

  lemma PageInBatch(page: nat, copies: nat, items: nat)
    requires 0 < copies && items > 0 && page / copies < items
    ensures PositionOfPage(page, copies, items - 1) == Position(page / copies, page % copies)
  {
  }

  /** Before the first page is marked the first label is reported. */
  lemma StartsOnTheFirstLabel(plan: seq<Action>, last: Option<nat>, copies: nat, items: nat)
    requires last.None? || PageMarker !in Taken(plan, last.value)
    ensures BatchPosition(plan, last, copies, items) == Position(0, 0)
  {
    if last.Some? {
      NoMarkers(Taken(plan, last.value));
    }
  }

  lemma {:induction false} NoMarkers(plan: seq<Action>)
    requires PageMarker !in plan
    ensures Markers(plan) == 0
  {
    if plan != [] {
      assert plan[|plan| - 1] in plan;
      NoMarkers(plan[..|plan| - 1]);
    }
  }

  // ---------------------------------------------------------------- progress through the batch

  predicate NotLater(a: Position, b: Position) {
    a.item < b.item || (a.item == b.item && a.copy <= b.copy)
  }

  lemma {:induction false} MarkersGrow(plan: seq<Action>, more: nat)
    requires more <= |plan|
    ensures Markers(plan[..more]) <= Markers(plan)
  {
    if more < |plan| {
      MarkersGrow(plan[..|plan| - 1], more);
      assert plan[..|plan| - 1][..more] == plan[..more];
    } else {
      assert plan[..more] == plan;
    }
  }

  lemma PagesGrow(plan: seq<Action>, a: nat, b: nat)
    requires a <= b
    ensures Page(plan, a) <= Page(plan, b) && Page(plan, b) <= AtLeastOne(Markers(plan)) - 1
  {
    hide Markers;
    var later := Taken(plan, b);
    MarkersGrow(later, |Taken(plan, a)|);
    assert later[..|Taken(plan, a)|] == Taken(plan, a);
    MarkersGrow(plan, |later|);
    assert plan[..|later|] == later;
  }

  lemma {:induction false} SomePage(plan: seq<Action>, count: nat) returns (last: nat)
    requires 0 < count <= Markers(plan)
    ensures Page(plan, last) == count - 1
  {
    if Markers(plan) == count {
      last := |plan| - 1;
      assert plan[..|plan|] == plan;
    } else {
      var before := plan[..|plan| - 1];
      last := SomePage(before, count);
      last := if last < |before| then last else |before| - 1;
      assert Taken(before, last) == Taken(plan, last);
      assert before[..|before|] == before;
    }
  }

  /** The reported position never goes back. */
  ghost predicate NeverGoesBack(plan: seq<Action>, copies: nat, items: nat) {
    forall a: nat, b: nat :: a <= b ==>
      NotLater(BatchPosition(plan, Some(a), copies, items), BatchPosition(plan, Some(b), copies, items))
  }

  lemma PagesInOrder(a: nat, b: nat, divisor: nat, lastItem: nat)
    requires a <= b && divisor > 0 && (b < (lastItem + 1) * divisor || divisor == 1)
    ensures NotLater(PositionOfPage(a, divisor, lastItem), PositionOfPage(b, divisor, lastItem))
  {
    if divisor > 1 {
      CellOf(a, divisor, lastItem + 1);
      CellOf(b, divisor, lastItem + 1);
      Quotient(a, divisor, b / divisor);
    }
  }

  lemma PagesOutOfOrder(divisor: nat, lastItem: nat)
    requires divisor > 1
    ensures var first := (lastItem + 1) * divisor;
            first > 0 &&
            !NotLater(PositionOfPage(first - 1, divisor, lastItem), PositionOfPage(first, divisor, lastItem))
  {
    Division((lastItem + 1) * divisor - 1, divisor, lastItem, divisor - 1);
    Division((lastItem + 1) * divisor, divisor, lastItem + 1, 0);
  }

  /** The reported position never goes back exactly when no more pages are marked
      than the batch has labels, or every document is printed once. */
  lemma NeverGoesBackExactlyWhen(plan: seq<Action>, copies: nat, items: nat)
    requires copies <= U16_MAX
    ensures NeverGoesBack(plan, copies, items) <==>
            Markers(plan) <= AtLeastOne(items) * AtLeastOne(copies) || AtLeastOne(copies) == 1
  {
    hide NotLater, Page;
    var divisor, lastItem := AtLeastOne(copies), AtLeastOne(items) - 1;
    if Markers(plan) <= (lastItem + 1) * divisor || divisor == 1 {
      forall a: nat, b: nat | a <= b
        ensures NotLater(BatchPosition(plan, Some(a), copies, items), BatchPosition(plan, Some(b), copies, items))
      {
        PagesGrow(plan, a, b);
        PagesInOrder(Page(plan, a), Page(plan, b), divisor, lastItem);
      }
    } else {
      var first := (lastItem + 1) * divisor;
      PagesOutOfOrder(divisor, lastItem);
      var a := SomePage(plan, first);
      var b := SomePage(plan, first + 1);
      if b < a {
        PagesGrow(plan, b, a);
      }
      assert !NotLater(BatchPosition(plan, Some(a), copies, items), BatchPosition(plan, Some(b), copies, items));
    }
  }

  /** A plan that marks three pages for one document in two copies would be reported
      as going back from the second copy to the first. */
  lemma ThreePagesForTwoCopies()
    ensures var plan := [PageMarker, PageMarker, PageMarker];
            && BatchPosition(plan, Some(1), 2, 1) == Position(0, 1)
            && BatchPosition(plan, Some(2), 2, 1) == Position(0, 0)
            && !NeverGoesBack(plan, 2, 1)
  {
    var plan := [PageMarker, PageMarker, PageMarker];
    assert plan[..2] == [PageMarker, PageMarker] && plan[..3] == plan;
    assert [PageMarker, PageMarker][..1] == [PageMarker] && [PageMarker][..0] == [];
    assert Markers([PageMarker]) == 1 && Markers([PageMarker, PageMarker]) == 2 && Markers(plan) == 3;
    assert !NotLater(BatchPosition(plan, Some(1), 2, 1), BatchPosition(plan, Some(2), 2, 1));
  }

  // ---------------------------------------------------------------- cutting the roll

  datatype CutMode = AfterEach | AfterJob | NoCut

  /** The continuous-media options of a job.  A feed is `None` when the number in
      the request is not finite. */
  datatype Continuous = Continuous(mode: CutMode, feedBefore: Option<real>, feedAfter: Option<real>, chain: bool)

  datatype Capability = Capability(
    supported: bool,
    minimumLength: real,
    maximumLength: real,
    modes: set<CutMode>,
    chained: bool,
    minimumFeed: real,
    maximumFeed: real)

  datatype Refusal = NeedsContinuousMedia | Unsupported | BadLength | BadMode | NoChaining | BadFeed | TooManyCopies | TooManyLabels

  datatype Cutting = Cut(cut: bool, every: nat) | Refused(why: Refusal)

  predicate FeedAllowed(feed: Option<real>, capability: Capability) {
    feed.Some? && capability.minimumFeed <= feed.value <= capability.maximumFeed
  }

  /** Why the printer cannot do what is asked, apart from the number of labels. */
  function Objection(height: int, capability: Option<Capability>, job: Option<Continuous>): Option<Refusal> {
    if capability.None? || !capability.value.supported then Some(Unsupported) else
    var able := capability.value;
    var length := height as real / 1000.0;
    if length < able.minimumLength || length > able.maximumLength then Some(BadLength)
    else if job.None? then None
    else if job.value.mode !in able.modes then Some(BadMode)
    else if job.value.chain && !able.chained then Some(NoChaining)
    else if !FeedAllowed(job.value.feedBefore, able) || !FeedAllowed(job.value.feedAfter, able) then Some(BadFeed)
    else None
  }

  function ProtocolOptions(
      continuous: bool, height: int, capability: Option<Capability>, job: Option<Continuous>, labels: nat): Cutting {
    if !continuous then if job.Some? then Refused(NeedsContinuousMedia) else Cut(true, 1) else
    match Objection(height, capability, job)
    case Some(why) => Refused(why)
    case None =>
      if job.None? then Cut(true, 1)
      else if job.value.mode == AfterJob || (job.value.mode == AfterEach && job.value.chain) then
        if labels <= U8_MAX then Cut(job.value.mode != NoCut, labels) else Refused(TooManyCopies)
      else Cut(job.value.mode != NoCut, 1)
  }

  /** The printer can do what is asked exactly when the length of the document, in
      micrometres, the cutting, the chaining and both feeds are within what it says of
      itself. */
  lemma PossibleExactlyWhen(height: int, capability: Option<Capability>, job: Option<Continuous>)
    ensures Objection(height, capability, job).None? <==>
            && capability.Some? && capability.value.supported
            && capability.value.minimumLength * 1000.0 <= height as real <= capability.value.maximumLength * 1000.0
            && (job.Some? ==>
                  && job.value.mode in capability.value.modes
                  && (job.value.chain ==> capability.value.chained)
                  && job.value.feedBefore.Some? && job.value.feedAfter.Some?
                  && capability.value.minimumFeed <= job.value.feedBefore.value <= capability.value.maximumFeed
                  && capability.value.minimumFeed <= job.value.feedAfter.value <= capability.value.maximumFeed)
  {
  }

  /** What is objected to first: the length, then the cutting, the chaining and the feeds. */
  lemma ObjectionsInOrder(height: int, able: Capability, job: Continuous)
    requires able.supported
    ensures var why := Objection(height, Some(able), Some(job));
            var fits := able.minimumLength * 1000.0 <= height as real <= able.maximumLength * 1000.0;
            && (why == Some(BadLength) <==> !fits)
            && (why == Some(BadMode) <==> fits && job.mode !in able.modes)
            && (why == Some(NoChaining) <==> fits && job.mode in able.modes && job.chain && !able.chained)
            && (why == Some(BadFeed) ==> fits && job.mode in able.modes && (job.chain ==> able.chained))
  {
  }

  /** The cutting of a whole submission: `copies` of each of `documents`. */
  function CuttingOf(
      continuous: bool, height: int, capability: Option<Capability>, job: Option<Continuous>, copies: nat, documents: nat)
    : Cutting
  {
    if copies * documents > U16_MAX then Refused(TooManyLabels) else
    var counted := if job.Some? && job.value.chain && job.value.mode == AfterEach then copies else copies * documents;
    ProtocolOptions(continuous, height, capability, job, counted)
  }

  /** The printer cuts after every `every` labels. */
  predicate CutsAfter(cutting: Cutting, k: nat)
    requires cutting.Cut? && cutting.every > 0
  {
    cutting.cut && (k + 1) % cutting.every == 0
  }

  lemma Multiples(k: nat, d: nat)
    requires d > 0
    ensures (k + 1) % d == 0 <==> k % d == d - 1
  {
    if k % d == d - 1 {
      Division(k + 1, d, k / d + 1, 0);
    } else {
      Division(k + 1, d, k / d, k % d + 1);
    }
  }

  lemma OnlyAtTheEnd(k: nat, n: nat)
    requires k < n
    ensures (k + 1) % n == 0 <==> k == n - 1
  {
  }

  lemma AcceptedCutting(height: int, capability: Option<Capability>, job: Continuous, copies: nat, documents: nat)
    requires CuttingOf(true, height, capability, Some(job), copies, documents).Cut?
    ensures CuttingOf(true, height, capability, Some(job), copies, documents) ==
            match job.mode
            case NoCut => Cut(false, 1)
            case AfterJob => Cut(true, copies * documents)
            case AfterEach => Cut(true, if job.chain then copies else 1)
  {
  }

  /** On media that are not continuous, and without options, a cut follows every label;
      options are refused for such media, and whatever the printer objects to is the
      refusal. */
  lemma PlainCutting(
      continuous: bool, height: int, capability: Option<Capability>, job: Option<Continuous>, copies: nat, documents: nat)
    ensures var cutting := CuttingOf(continuous, height, capability, job, copies, documents);
            && (cutting == Refused(TooManyLabels) <==> copies * documents > 65_535)
            && (copies * documents <= 65_535 ==>
                  && (!continuous ==> cutting == if job.Some? then Refused(NeedsContinuousMedia) else Cut(true, 1))
                  && (continuous && Objection(height, capability, job).Some? ==>
                        cutting == Refused(Objection(height, capability, job).value))
                  && (continuous && Objection(height, capability, job).None? && job.None? ==> cutting == Cut(true, 1)))
  {
  }

  /** Where an accepted job is cut, for every label `k` of the batch: chained
      cutting after each cuts between documents and nowhere else, unchained after
      every label, cutting after the job once at the end. */
  lemma CutsWhereAsked(
      height: int, capability: Option<Capability>, job: Continuous, copies: nat, documents: nat, k: nat)
    requires copies > 0 && documents > 0 && k < copies * documents
    requires CuttingOf(true, height, capability, Some(job), copies, documents).Cut?
    ensures var cutting := CuttingOf(true, height, capability, Some(job), copies, documents);
            cutting.every > 0 &&
            (CutsAfter(cutting, k) <==>
             match job.mode
             case NoCut => false
             case AfterJob => k == copies * documents - 1
             case AfterEach => !job.chain || k % copies == copies - 1)
  {
    hide CuttingOf;
    AcceptedCutting(height, capability, job, copies, documents);
    Multiples(k, copies);
    OnlyAtTheEnd(k, copies * documents);
  }

  /** A chained document boundary is where the document changes or the batch ends. */
  lemma BoundariesAreBetweenDocuments(copies: nat, k: nat)
    requires copies > 0
    ensures k % copies == copies - 1 <==> (k + 1) / copies != k / copies
  {
    if k % copies == copies - 1 {
      Division(k + 1, copies, k / copies + 1, 0);
    } else {
      Division(k + 1, copies, k / copies, k % copies + 1);
    }
  }

  /** Exactly the jobs with one cut for too many labels are refused for their number. */
  lemma RefusedForCopiesExactlyWhen(
      height: int, capability: Option<Capability>, job: Continuous, copies: nat, documents: nat)
    requires Objection(height, capability, Some(job)).None?
    ensures CuttingOf(true, height, capability, Some(job), copies, documents).Refused? <==>
            || copies * documents > 65_535
            || (job.mode == AfterJob && copies * documents > 255)
            || (job.mode == AfterEach && job.chain && copies > 255)
  {
  }
}
