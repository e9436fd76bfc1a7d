/**
 * The per-spot tracking loop of `run_tracking` and the displacement table it appends to.
 *
 * The MIL tracker is an input function from (spot index, seed box, frame index) to the
 * tracker's `(success, box)` answer, and `waitKey` is an input stream of raw key codes.
 * Images, drawing and windows are not modelled; only the number of images matters.
 */
module Tracking {
  import opened Wrappers
  import opened Geometry
  import opened Text
  import opened SpotDetection
  import opened Downloader

  /** How far the seed box is widened towards the top left, and grown, in pixels. */
  const Oversize: int := 20

  /** `ord('q')`, `ord('p')`, `ord('y')`, `ord('n')`. */
  const KeyQuit: int := 113
  const KeyPause: int := 112
  const KeyYes: int := 121
  const KeyNo: int := 110
  /** What a timed `waitKey` returns when no key arrives. */
  const NoKey: int := -1

  /** The table file kept beside the names file of a trace. */
  const TableFile: string := "data_points.csv"

  /** `key & 0xFF`. */
  function Mask(key: int): (b: int)
    ensures 0 <= b < 256
    ensures 0 <= key < 256 ==> b == key
    ensures (key - b) % 256 == 0
  {
    key % 256
  }

  /** A timed wait without a key never reads as a command. */
  lemma NoKeyIsNoCommand()
    ensures Mask(NoKey) == 255
    ensures Mask(NoKey) !in {KeyQuit, KeyPause, KeyYes, KeyNo}
  {
  }

  /** Python's `int(r)`: truncation toward zero. */
  function Trunc(r: real): (t: int)
    ensures 0.0 <= r ==> t as real <= r < t as real + 1.0
    ensures r < 0.0 ==> t as real - 1.0 < r <= t as real
  {
    if r >= 0.0 then r.Floor else -((-r).Floor)
  }

  /** An integer pixel position. */
  datatype IntPoint = IntPoint(x: int, y: int)

  /** One line of the displacement table: start point, end point, frames spanned. */
  datatype Row = Row(x1: int, y1: int, x2: int, y2: int, span: int)

  /** What the tracker reports for one frame. */
  datatype Update = Update(success: bool, box: Box)

  /** The start point: the spot's centroid truncated to whole pixels. */
  function StartPoint(c: Point): (s: IntPoint)
    ensures 0.0 <= c.x ==> s.x as real <= c.x < s.x as real + 1.0
    ensures 0.0 <= c.y ==> s.y as real <= c.y < s.y as real + 1.0
  {
    IntPoint(Trunc(c.x), Trunc(c.y))
  }

  /**
   * The box the tracker is seeded with: the corner moves up and left by the oversize and the
   * size grows by the same amount, so the right and bottom edges stay where they were.
   */
  function SeedBox(b: Box): (s: Box)
    ensures s.x == b.x - Oversize && s.y == b.y - Oversize
    ensures s.Right() == b.Right() && s.Bottom() == b.Bottom()
  {
    Box(b.x - Oversize, b.y - Oversize, b.w + Oversize, b.h + Oversize)
  }

  /** `(int(x + w / 2), int(y + h / 2))`: the box centre; it lies in the box when the box is not inverted. */
  function Center(b: Box): (c: IntPoint)
    ensures 0 <= b.w ==> b.x <= c.x <= b.Right()
    ensures 0 <= b.h ==> b.y <= c.y <= b.Bottom()
    ensures -1.0 < c.x as real - (b.x as real + b.w as real / 2.0) < 1.0
    ensures -1.0 < c.y as real - (b.y as real + b.h as real / 2.0) < 1.0
  {
    IntPoint(Trunc(b.x as real + b.w as real / 2.0), Trunc(b.y as real + b.h as real / 2.0))
  }

  // ----- one tracking session -----

  /** The fixed inputs of a run: frame count, mode, key stream and tracker answers. */
  datatype Session = Session(frames: nat, interactive: bool, keys: seq<int>, track: (nat, Box, nat) -> Update)

  /** How a stretch of the run ended: on to the next step, `q`, or waiting for a key that never comes. */
  datatype Flow = Next | Quit | Stall

  /** What the frame loop of one spot leaves: its ending, the end point and the key position. */
  datatype FrameRun = FrameRun(flow: Flow, end: Option<IntPoint>, cursor: nat)

  /**
   * The frame loop of one spot from frame i on, the end point so far being `end` and the next
   * key being `keys[cursor]`. A timed wait past the end of the stream sees no key; the
   * blocking wait after `p` past the end of the stream never returns.
   */
  function FramesFrom(s: Session, spot: nat, seed: Box, i: nat, end: Option<IntPoint>, cursor: nat): FrameRun
    decreases s.frames - i
  {
    if i >= s.frames then FrameRun(Next, end, cursor)
    else
      var u := s.track(spot, seed, i);
      var end' := if u.success && i == s.frames - 1 then Some(Center(u.box)) else end;
      if !s.interactive then FramesFrom(s, spot, seed, i + 1, end', cursor)
      else
        var key := if cursor < |s.keys| then Mask(s.keys[cursor]) else Mask(NoKey);
        var next := if cursor < |s.keys| then cursor + 1 else cursor;
        if key == KeyQuit then FrameRun(Quit, end', next)
        else if key == KeyPause then
          if next < |s.keys| then FramesFrom(s, spot, seed, i + 1, end', next + 1)
          else FrameRun(Stall, end', next)
        else FramesFrom(s, spot, seed, i + 1, end', next)
  }

  /** The tracker's answer on the last frame. */
  function LastUpdate(s: Session, spot: nat, seed: Box): Update
    requires 1 <= s.frames
  {
    s.track(spot, seed, s.frames - 1)
  }

  /**
   * A frame loop that runs to the end leaves an end point exactly when the tracker succeeded on
   * the last frame, and then it is the centre of that frame's box; otherwise the end point it
   * started with.
   */
  lemma {:induction false} FramesEnd(s: Session, spot: nat, seed: Box, i: nat, end: Option<IntPoint>, cursor: nat)
    requires 1 <= i
    ensures FramesFrom(s, spot, seed, i, end, cursor).flow == Next ==>
              FramesFrom(s, spot, seed, i, end, cursor).end ==
                (if i < s.frames && LastUpdate(s, spot, seed).success
                 then Some(Center(LastUpdate(s, spot, seed).box)) else end)
    decreases s.frames - i
  {
    if i < s.frames {
      var u := s.track(spot, seed, i);
      var end' := if u.success && i == s.frames - 1 then Some(Center(u.box)) else end;
      FramesEnd(s, spot, seed, i + 1, end', if s.interactive && cursor < |s.keys| then cursor + 1 else cursor);
      FramesEnd(s, spot, seed, i + 1, end', cursor);
      FramesEnd(s, spot, seed, i + 1, end', if cursor < |s.keys| then cursor + 2 else cursor + 1);
    }
  }

  /**
   * Whether a spot's frame loop is cut short, and how many keys it reads, depend on the keys
   * alone: tracker failures never end it early.
   */
  lemma {:induction false} FlowIgnoresTracker(s: Session, track': (nat, Box, nat) -> Update, spot: nat, seed: Box,
                                              i: nat, end: Option<IntPoint>, end2: Option<IntPoint>, cursor: nat)
    ensures FramesFrom(s, spot, seed, i, end, cursor).flow == FramesFrom(s.(track := track'), spot, seed, i, end2, cursor).flow
    ensures FramesFrom(s, spot, seed, i, end, cursor).cursor == FramesFrom(s.(track := track'), spot, seed, i, end2, cursor).cursor
    decreases s.frames - i
  {
    if i < s.frames {
      var s' := s.(track := track');
      var u, u' := s.track(spot, seed, i), s'.track(spot, seed, i);
      var e := if u.success && i == s.frames - 1 then Some(Center(u.box)) else end;
      var e' := if u'.success && i == s.frames - 1 then Some(Center(u'.box)) else end2;
      var next := if cursor < |s.keys| then cursor + 1 else cursor;
      if !s.interactive {
        FlowIgnoresTracker(s, track', spot, seed, i + 1, e, e', cursor);
      } else {
        FlowIgnoresTracker(s, track', spot, seed, i + 1, e, e', next + 1);
        FlowIgnoresTracker(s, track', spot, seed, i + 1, e, e', next);
      }
    }
  }

  /** Without a window the frame loop reads no key and always runs to the end. */
  lemma {:induction false} NonInteractiveFrames(s: Session, spot: nat, seed: Box, i: nat, end: Option<IntPoint>, cursor: nat)
    requires !s.interactive
    ensures FramesFrom(s, spot, seed, i, end, cursor).flow == Next
    ensures FramesFrom(s, spot, seed, i, end, cursor).cursor == cursor
    decreases s.frames - i
  {
    if i < s.frames {
      var u := s.track(spot, seed, i);
      var end' := if u.success && i == s.frames - 1 then Some(Center(u.box)) else end;
      NonInteractiveFrames(s, spot, seed, i + 1, end', cursor);
    }
  }

  /** The frame loop of one spot, frames 1 .. frames - 1. */
  method TrackFrames(s: Session, spot: nat, seed: Box, cursor0: nat) returns (r: FrameRun)
    ensures r == FramesFrom(s, spot, seed, 1, None, cursor0)
  {
    var end: Option<IntPoint> := None;
    var cursor: nat := cursor0;
    var i := 1;
    while i < s.frames
      invariant 1 <= i
      invariant FramesFrom(s, spot, seed, 1, None, cursor0) == FramesFrom(s, spot, seed, i, end, cursor)
      decreases s.frames - i
    {
      var u := s.track(spot, seed, i);
      if u.success && i == s.frames - 1 {
        end := Some(Center(u.box));
      }
      if s.interactive {
        var key := NoKey;
        if cursor < |s.keys| {
          key := s.keys[cursor];
          cursor := cursor + 1;
        }
        key := Mask(key);
        if key == KeyQuit {
          return FrameRun(Quit, end, cursor);
        } else if key == KeyPause {
          if cursor >= |s.keys| {
            return FrameRun(Stall, end, cursor);
          }
          // the key that ends the pause is read and ignored
          cursor := cursor + 1;
        }
      }
      i := i + 1;
    }
    return FrameRun(Next, end, cursor);
  }

  // ----- the y/n gate -----

  /** A key that ends the gate. */
  predicate Decisive(key: int)
  {
    Mask(key) == KeyYes || Mask(key) == KeyNo
  }

  /**
   * The gate from `keys[cursor]` on: the first `y` or `n` decides (true for `y`) and the key
   * after it is the next to read; every other key is skipped. None when the stream runs out
   * first, the blocking wait then never returning.
   */
  function Gate(keys: seq<int>, cursor: nat): (r: Option<(bool, nat)>)
    ensures r.Some? ==> var (keep, next) := r.value;
              && cursor < next <= |keys|
              && Decisive(keys[next - 1])
              && keep == (Mask(keys[next - 1]) == KeyYes)
              && forall k :: cursor <= k < next - 1 ==> !Decisive(keys[k])
    ensures r.None? ==> forall k :: cursor <= k < |keys| ==> !Decisive(keys[k])
    decreases |keys| - cursor
  {
    if cursor >= |keys| then None
    else if Mask(keys[cursor]) == KeyYes then Some((true, cursor + 1))
    else if Mask(keys[cursor]) == KeyNo then Some((false, cursor + 1))
    else Gate(keys, cursor + 1)
  }

  /** The `while True` key loop of the gate. */
  method AwaitDecision(keys: seq<int>, cursor0: nat) returns (r: Option<(bool, nat)>)
    ensures r == Gate(keys, cursor0)
  {
    var cursor := cursor0;
    while true
      invariant Gate(keys, cursor0) == Gate(keys, cursor)
      decreases |keys| - cursor
    {
      if cursor >= |keys| {
        return None;
      }
      var key := Mask(keys[cursor]);
      cursor := cursor + 1;
      if key == KeyYes {
        return Some((true, cursor));
      } else if key == KeyNo {
        return Some((false, cursor));
      }
    }
  }

  // ----- one spot, and all spots -----

  /** What one spot contributes: how it ended, the row it writes, and the next key position. */
  datatype SpotRun = SpotRun(flow: Flow, row: Option<Row>, cursor: nat)

  /** The row a spot writes when it is kept: start point, centre of the last box, frames spanned. */
  function RowOf(s: Session, spot: nat, box: Box, cent: Point): Row
    requires 1 <= s.frames
  {
    var start := StartPoint(cent);
    var end := Center(LastUpdate(s, spot, SeedBox(box)).box);
    Row(start.x, start.y, end.x, end.y, s.frames - 1)
  }

  /** One pass of the spot loop: the frames, then the gate (interactive runs only), then the row. */
  function TrackSpot(s: Session, spot: nat, box: Box, cent: Point, cursor: nat): SpotRun
  {
    var start := StartPoint(cent);
    var fr := FramesFrom(s, spot, SeedBox(box), 1, None, cursor);
    if fr.flow != Next then SpotRun(fr.flow, None, fr.cursor)
    else if !s.interactive then SpotRun(Next, None, fr.cursor)
    else
      match Gate(s.keys, fr.cursor)
      case None => SpotRun(Stall, None, fr.cursor)
      case Some((keep, next)) =>
        SpotRun(Next,
                if keep && fr.end.Some? then Some(Row(start.x, start.y, fr.end.value.x, fr.end.value.y, s.frames - 1)) else None,
                next)
  }

  /**
   * A spot writes a row exactly when the run is interactive, its frames ran without `q` or a
   * stall, the operator answered `y`, and the tracker succeeded on the last frame; the row
   * holds the truncated centroid, the centre of the last box and the frame span.
   */
  lemma SpotRowExactly(s: Session, spot: nat, box: Box, cent: Point, cursor: nat)
    ensures var fr := FramesFrom(s, spot, SeedBox(box), 1, None, cursor);
            TrackSpot(s, spot, box, cent, cursor).row.Some? <==>
              && s.interactive && fr.flow == Next
              && Gate(s.keys, fr.cursor).Some? && Gate(s.keys, fr.cursor).value.0
              && 1 < s.frames && LastUpdate(s, spot, SeedBox(box)).success
    ensures TrackSpot(s, spot, box, cent, cursor).row.Some? ==>
              1 < s.frames && TrackSpot(s, spot, box, cent, cursor).row.value == RowOf(s, spot, box, cent)
  {
    FramesEnd(s, spot, SeedBox(box), 1, None, cursor);
  }

  /** How the spot loop ended. */
  datatype Ending = Completed | Aborted | Stalled

  /**
   * The result of `run_tracking`: its names file is missing, indexing its first file fails
   * (fewer than two names), or it ran, ending somehow, having appended these rows.
   */
  datatype Outcome = NamesFileMissing | ManifestIndexError(count: nat) | Ran(ending: Ending, rows: seq<Row>)

  /** The spot loop from spot j on, with `written` appended so far. */
  function SpotsFrom(s: Session, boxes: seq<Box>, cents: seq<Point>, j: nat, cursor: nat, written: seq<Row>): (r: Outcome)
    requires |boxes| == |cents|
    ensures r.Ran?
    decreases |boxes| - j
  {
    if j >= |boxes| then Ran(Completed, written)
    else
      var sp := TrackSpot(s, j, boxes[j], cents[j], cursor);
      if sp.flow == Quit then Ran(Aborted, written)
      else if sp.flow == Stall then Ran(Stalled, written)
      else SpotsFrom(s, boxes, cents, j + 1, sp.cursor, written + (if sp.row.Some? then [sp.row.value] else []))
  }

  /** The row was written for one of the spots, whose tracker succeeded on the last frame. */
  ghost predicate TrackedRow(s: Session, boxes: seq<Box>, cents: seq<Point>, row: Row)
    requires |boxes| == |cents| && 1 <= s.frames
  {
    exists k :: 0 <= k < |boxes| && LastUpdate(s, k, SeedBox(boxes[k])).success && row == RowOf(s, k, boxes[k], cents[k])
  }

  /**
   * The loop only appends: rows written before stay first and unchanged, and every new row is
   * the row of some spot whose tracker succeeded on the last frame.
   */
  lemma {:induction false} SpotsAppendTrackedRows(s: Session, boxes: seq<Box>, cents: seq<Point>, j: nat, cursor: nat, written: seq<Row>)
    requires |boxes| == |cents| && 1 <= s.frames
    ensures var r := SpotsFrom(s, boxes, cents, j, cursor, written);
            && |written| <= |r.rows| && r.rows[..|written|] == written
            && forall m :: |written| <= m < |r.rows| ==> TrackedRow(s, boxes, cents, r.rows[m])
    decreases |boxes| - j
  {
    if j < |boxes| {
      var sp := TrackSpot(s, j, boxes[j], cents[j], cursor);
      if sp.flow == Next {
        var written' := written + (if sp.row.Some? then [sp.row.value] else []);
        SpotsAppendTrackedRows(s, boxes, cents, j + 1, sp.cursor, written');
        SpotRowExactly(s, j, boxes[j], cents[j], cursor);
        var r := SpotsFrom(s, boxes, cents, j + 1, sp.cursor, written');
        assert r.rows[..|written'|][..|written|] == r.rows[..|written|];
        if sp.row.Some? {
          assert r.rows[|written|] == written'[|written|] == RowOf(s, j, boxes[j], cents[j]);
        }
      }
    }
  }

  /** A run without a window completes every spot and never writes a row. */
  lemma {:induction false} NonInteractiveWritesNothing(s: Session, boxes: seq<Box>, cents: seq<Point>, j: nat, cursor: nat, written: seq<Row>)
    requires |boxes| == |cents| && !s.interactive
    ensures SpotsFrom(s, boxes, cents, j, cursor, written) == Ran(Completed, written)
    decreases |boxes| - j
  {
    if j < |boxes| {
      NonInteractiveFrames(s, j, SeedBox(boxes[j]), 1, None, cursor);
      assert TrackSpot(s, j, boxes[j], cents[j], cursor) == SpotRun(Next, None, cursor);
      assert written + [] == written;
      NonInteractiveWritesNothing(s, boxes, cents, j + 1, cursor, written);
    }
  }

  /**
   * `q` (or a stall) ends the whole run: spots after the one it happened in are never looked
   * at, so appending more spots changes nothing.
   */
  lemma {:induction false} AbortIgnoresLaterSpots(s: Session, boxes: seq<Box>, cents: seq<Point>, more: seq<Box>,
                                                  moreCents: seq<Point>, j: nat, cursor: nat, written: seq<Row>)
    requires |boxes| == |cents| && |more| == |moreCents|
    requires SpotsFrom(s, boxes, cents, j, cursor, written).ending != Completed
    ensures SpotsFrom(s, boxes + more, cents + moreCents, j, cursor, written) == SpotsFrom(s, boxes, cents, j, cursor, written)
    decreases |boxes| - j
  {
    var sp := TrackSpot(s, j, boxes[j], cents[j], cursor);
    assert (boxes + more)[j] == boxes[j] && (cents + moreCents)[j] == cents[j];
    if sp.flow == Next {
      AbortIgnoresLaterSpots(s, boxes, cents, more, moreCents, j + 1, sp.cursor,
                             written + (if sp.row.Some? then [sp.row.value] else []));
    }
  }

  // ----- the names file and the whole run -----

  /** The names file read line by line from a trace folder, None when there is no such file. */
  function ManifestIn(files: map<string, string>, folder: string): Option<seq<string>>
  {
    var path := folder + "/" + NamesFile;
    if path in files then Some(Lines(files[path])) else None
  }

  /** The folder the tracker opens for a trace, as written: `"TR_0"` followed by `str(trace)`. */
  function LegacyFolderName(trace: int): string
  {
    "TR_0" + IntToString(trace)
  }

  /** The legacy name agrees with the downloader's zero-padded name for traces 0 to 9 only. */
  lemma LegacyFolderNameAgrees(trace: int)
    ensures LegacyFolderName(trace) == TraceFolderName(trace) <==> 0 <= trace <= 9
  {
    if 0 <= trace <= 9 {
      assert IntToString(trace) == [DigitChar(trace)];
    } else {
      assert Format02(trace) == IntToString(trace);
      assert |LegacyFolderName(trace)| == |TraceFolderName(trace)| + 1;
    }
  }

  /** Trace 10, as the downloader stores it, is not found by the legacy name. */
  lemma LegacyLookupMissesTrace10(text: string)
    ensures var files := map[TraceFolderName(10) + "/" + NamesFile := text];
            ManifestIn(files, LegacyFolderName(10)).None? && ManifestIn(files, TraceFolderName(10)) == Some(Lines(text))
  {
    LegacyFolderNameAgrees(10);
    assert |LegacyFolderName(10) + "/" + NamesFile| != |TraceFolderName(10) + "/" + NamesFile|;
  }

  /** The names of a trace, looked up in the folder the downloader created for it. */
  function Manifest(files: map<string, string>, trace: int): Option<seq<string>>
  {
    ManifestIn(files, TraceFolderName(trace))
  }

  /** After a download, tracking that trace reads back the base names of the fetched files, in order. */
  lemma DownloadedTraceIsFound(files: map<string, string>, trace: int, fetched: seq<string>)
    requires forall k :: 0 <= k < |fetched| ==> '\n' !in BaseName(fetched[k])
    ensures Manifest(files[TraceFolderName(trace) + "/" + NamesFile := NamesText(fetched)], trace) == Some(BaseNames(fetched))
  {
    NamesTextLines(fetched);
  }

  /**
   * `run_tracking(trace, interactive)`: `regions`, `sunRadius` and `sunCenter` are what the
   * connected-component labelling and the FITS header give for the first image.
   */
  function Tracking(trace: int, interactive: bool, files: map<string, string>, regions: seq<Region>,
                    sunRadius: int, sunCenter: Point, grouping: Grouping,
                    track: (nat, Box, nat) -> Update, keys: seq<int>): Outcome
  {
    match Manifest(files, trace)
    case None => NamesFileMissing
    case Some(names) =>
      if |names| < 2 then ManifestIndexError(|names|)
      else
        DefaultDetectSucceeds(regions, sunRadius, sunCenter, grouping);
        var (boxes, cents) := Detect(regions, DefaultParams(sunRadius, sunCenter), grouping).value;
        SpotsFrom(Session(|names|, interactive, keys, track), boxes, cents, 0, 0, [])
  }

  /**
   * A run stops before tracking exactly when the names file of its trace is missing, or holds
   * fewer than two names: indexing the first name then fails.
   */
  lemma TrackingStopsOnlyOnManifest(trace: int, interactive: bool, files: map<string, string>, regions: seq<Region>,
                                    sunRadius: int, sunCenter: Point, grouping: Grouping,
                                    track: (nat, Box, nat) -> Update, keys: seq<int>)
    ensures var o := Tracking(trace, interactive, files, regions, sunRadius, sunCenter, grouping, track, keys);
            && (o == NamesFileMissing <==> Manifest(files, trace).None?)
            && (o.ManifestIndexError? <==> Manifest(files, trace).Some? && |Manifest(files, trace).value| < 2)
            && (o.Ran? <==> Manifest(files, trace).Some? && 2 <= |Manifest(files, trace).value|)
  {
  }

  /** The rows a run appended to the table. */
  function Written(o: Outcome): seq<Row>
  {
    if o.Ran? then o.rows else []
  }

  /** A run without a window never writes to the table. */
  lemma NonInteractiveTrackingWritesNothing(trace: int, files: map<string, string>, regions: seq<Region>,
                                            sunRadius: int, sunCenter: Point, grouping: Grouping,
                                            track: (nat, Box, nat) -> Update, keys: seq<int>)
    ensures Written(Tracking(trace, false, files, regions, sunRadius, sunCenter, grouping, track, keys)) == []
  {
    match Manifest(files, trace)
    case None =>
    case Some(names) =>
      if |names| >= 2 {
        DefaultDetectSucceeds(regions, sunRadius, sunCenter, grouping);
        var (boxes, cents) := Detect(regions, DefaultParams(sunRadius, sunCenter), grouping).value;
        NonInteractiveWritesNothing(Session(|names|, false, keys, track), boxes, cents, 0, 0, []);
      }
  }

  /** Every row a run writes is the row of a detected spot whose tracker succeeded on the last frame. */
  lemma TrackingWritesTrackedRows(trace: int, interactive: bool, files: map<string, string>, regions: seq<Region>,
                                  sunRadius: int, sunCenter: Point, grouping: Grouping,
                                  track: (nat, Box, nat) -> Update, keys: seq<int>)
    requires Manifest(files, trace).Some? && |Manifest(files, trace).value| >= 2
    ensures var d := Detect(regions, DefaultParams(sunRadius, sunCenter), grouping);
            var w := Written(Tracking(trace, interactive, files, regions, sunRadius, sunCenter, grouping, track, keys));
            && d.Success? && |d.value.0| == |d.value.1|
            && forall m :: 0 <= m < |w| ==>
                 TrackedRow(Session(|Manifest(files, trace).value|, interactive, keys, track), d.value.0, d.value.1, w[m])
  {
    DefaultDetectSucceeds(regions, sunRadius, sunCenter, grouping);
    var (boxes, cents) := Detect(regions, DefaultParams(sunRadius, sunCenter), grouping).value;
    var s := Session(|Manifest(files, trace).value|, interactive, keys, track);
    SpotsAppendTrackedRows(s, boxes, cents, 0, 0, []);
  }

  // ----- the displacement table -----

  /** `data_points.csv` of a trace: whether it exists, and its rows. */
  class DisplacementTable {
    var present: bool
    var rows: seq<Row>

    ghost predicate Valid()
      reads this
    {
      !present ==> rows == []
    }

    constructor ()
      ensures Valid() && !present && rows == []
    {
      present := false;
      rows := [];
    }

    /** The rows a read finds; a missing file reads as an empty table. */
    function Load(): (t: seq<Row>)
      reads this
      ensures !present ==> t == []
      ensures present ==> t == rows
    {
      if present then rows else []
    }

    /** Read the table, add the row at the end, and write it all back. */
    method Append(row: Row)
      requires Valid()
      modifies this
      ensures Valid() && present
      ensures rows == old(Load()) + [row]
    {
      var existing := Load();
      rows := existing + [row];
      present := true;
    }
  }

  /** One pass of the spot loop: frames, then the gate when interactive, then the row to keep. */
  method TrackOneSpot(s: Session, spot: nat, box: Box, cent: Point, cursor0: nat) returns (sp: SpotRun)
    ensures sp == TrackSpot(s, spot, box, cent, cursor0)
  {
    var start := StartPoint(cent);
    var fr := TrackFrames(s, spot, SeedBox(box), cursor0);
    if fr.flow != Next {
      return SpotRun(fr.flow, None, fr.cursor);
    }
    var cursor := fr.cursor;
    var keep := false;
    if s.interactive {
      var decision := AwaitDecision(s.keys, cursor);
      if decision.None? {
        return SpotRun(Stall, None, cursor);
      }
      keep := decision.value.0;
      cursor := decision.value.1;
    }
    var row: Option<Row> := None;
    if keep && fr.end.Some? {
      row := Some(Row(start.x, start.y, fr.end.value.x, fr.end.value.y, s.frames - 1));
    }
    return SpotRun(Next, row, cursor);
  }

  /** One step of the spot loop, given the pass over spot j. */
  lemma SpotsStep(s: Session, boxes: seq<Box>, cents: seq<Point>, j: nat, cursor: nat, written: seq<Row>, sp: SpotRun)
    requires |boxes| == |cents| && j < |boxes| && sp == TrackSpot(s, j, boxes[j], cents[j], cursor)
    ensures sp.flow == Quit ==> SpotsFrom(s, boxes, cents, j, cursor, written) == Ran(Aborted, written)
    ensures sp.flow == Stall ==> SpotsFrom(s, boxes, cents, j, cursor, written) == Ran(Stalled, written)
    ensures sp.flow == Next ==>
              SpotsFrom(s, boxes, cents, j, cursor, written) ==
              SpotsFrom(s, boxes, cents, j + 1, sp.cursor, written + (if sp.row.Some? then [sp.row.value] else []))
  {
  }

  /** The loop over the detected spots, appending each kept row to `table` as it goes. */
  method TrackSpots(s: Session, boxes: seq<Box>, cents: seq<Point>, table: DisplacementTable) returns (outcome: Outcome)
    requires |boxes| == |cents| && table.Valid()
    modifies table
    ensures table.Valid()
    ensures outcome == SpotsFrom(s, boxes, cents, 0, 0, [])
    ensures table.rows == old(table.Load()) + Written(outcome)
    ensures table.present == (old(table.present) || Written(outcome) != [])
  {
    var cursor := 0;
    var written: seq<Row> := [];
    ghost var before, wasPresent := table.Load(), table.present;
    for idx := 0 to |boxes|
      invariant SpotsFrom(s, boxes, cents, 0, 0, []) == SpotsFrom(s, boxes, cents, idx, cursor, written)
      invariant table.Valid() && table.rows == before + written
      invariant table.present == (wasPresent || written != [])
    {
      var sp := TrackOneSpot(s, idx, boxes[idx], cents[idx], cursor);
      SpotsStep(s, boxes, cents, idx, cursor, written, sp);
      if sp.flow == Quit {
        return Ran(Aborted, written);
      } else if sp.flow == Stall {
        return Ran(Stalled, written);
      }
      cursor := sp.cursor;
      if sp.row.Some? {
        table.Append(sp.row.value);
        written := written + [sp.row.value];
      } else {
        assert written + [] == written;
      }
    }
    return Ran(Completed, written);
  }

  /** The tracking loop over all detected spots, appending kept rows to `table`. */
  method RunTracking(trace: int, interactive: bool, files: map<string, string>, regions: seq<Region>,
                     sunRadius: int, sunCenter: Point, grouping: Grouping,
                     track: (nat, Box, nat) -> Update, keys: seq<int>, table: DisplacementTable)
    returns (outcome: Outcome)
    requires table.Valid()
    modifies table
    ensures table.Valid()
    ensures outcome == Tracking(trace, interactive, files, regions, sunRadius, sunCenter, grouping, track, keys)
    ensures table.rows == old(table.Load()) + Written(outcome)
    ensures table.present == (old(table.present) || Written(outcome) != [])
  {
    var path := TraceFolderName(trace) + "/" + NamesFile;
    if path !in files {
      return NamesFileMissing;
    }
    var names := Lines(files[path]);
    if |names| < 2 {
      return ManifestIndexError(|names|);
    }
    DefaultDetectSucceeds(regions, sunRadius, sunCenter, grouping);
    var detected := FindSpotsAndBoxes(regions, DefaultParams(sunRadius, sunCenter), grouping);
    outcome := TrackSpots(Session(|names|, interactive, keys, track), detected.value.0, detected.value.1, table);
  }
}
