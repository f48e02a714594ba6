/**
 * The server's score (internal/score/score.go) over exact reals: piecewise-linear interpolation in five
 * tables, rounding to one decimal, and a weighted sum. The interpolation facts hold of every table.
 */
module Score {

  datatype Point = Point(x: real, y: real)

  datatype Metrics = Metrics(latency: real, loss: real, jitter: real, download: real, upload: real)

  datatype Breakdown = Breakdown(overall: real, latency: real, loss: real, jitter: real, download: real, upload: real)

  // ----- interpolation -----

  /** A table: not empty, with strictly increasing abscissas. */
  predicate Table(ps: seq<Point>) {
    ps != [] && forall i :: 0 <= i < |ps| - 1 ==> ps[i].x < ps[i + 1].x
  }

  predicate Rising(ps: seq<Point>) {
    forall i :: 0 <= i < |ps| - 1 ==> ps[i].y <= ps[i + 1].y
  }

  predicate Falling(ps: seq<Point>) {
    forall i :: 0 <= i < |ps| - 1 ==> ps[i].y >= ps[i + 1].y
  }

  function Segment(x: real, p: Point, q: Point): real
    requires p.x < q.x
  {
    p.y + (q.y - p.y) * (x - p.x) / (q.x - p.x)
  }

  /** The scan from index `i` on. */
  function Scan(x: real, ps: seq<Point>, i: nat): real
    requires Table(ps) && 1 <= i <= |ps|
    decreases |ps| - i
  {
    if i == |ps| then ps[|ps| - 1].y
    else if x <= ps[i].x then Segment(x, ps[i - 1], ps[i])
    else Scan(x, ps, i + 1)
  }

  function Interpolated(x: real, ps: seq<Point>): real
    requires Table(ps)
  {
    if x <= ps[0].x then ps[0].y else Scan(x, ps, 1)
  }

  method Interp(x: real, ps: seq<Point>) returns (y: real)
    requires Table(ps)
    ensures y == Interpolated(x, ps)
  {
    if x <= ps[0].x {
      return ps[0].y;
    }
    for i := 1 to |ps|
      invariant Scan(x, ps, 1) == Scan(x, ps, i)
    {
      if x <= ps[i].x {
        return Segment(x, ps[i - 1], ps[i]);
      }
    }
    return ps[|ps| - 1].y;
  }

  lemma ProductMonotone(k: real, a: real, b: real)
    requires k >= 0.0 && a <= b
    ensures k * a <= k * b
  {
    assert k * (b - a) >= 0.0;
  }

  lemma QuotientMonotone(a: real, b: real, d: real)
    requires d > 0.0 && a <= b
    ensures a / d <= b / d
  {
    assert (b - a) / d >= 0.0;
    assert (b - a) / d == b / d - a / d;
  }

  lemma QuotientCancels(a: real, d: real)
    requires d > 0.0
    ensures a * d / d == a
  {
  }

  lemma SegmentMonotone(x: real, x': real, p: Point, q: Point)
    requires p.x < q.x && p.y <= q.y && x <= x'
    ensures Segment(x, p, q) <= Segment(x', p, q)
  {
    ProductMonotone(q.y - p.y, x - p.x, x' - p.x);
    QuotientMonotone((q.y - p.y) * (x - p.x), (q.y - p.y) * (x' - p.x), q.x - p.x);
  }

  lemma SegmentEnds(p: Point, q: Point)
    requires p.x < q.x
    ensures Segment(p.x, p, q) == p.y && Segment(q.x, p, q) == q.y
  {
    QuotientCancels(q.y - p.y, q.x - p.x);
    assert (q.y - p.y) * (p.x - p.x) == 0.0;
  }

  lemma {:induction false} ScanBounds(x: real, ps: seq<Point>, i: nat)
    requires Table(ps) && Rising(ps) && 1 <= i <= |ps| && ps[i - 1].x <= x
    ensures ps[i - 1].y <= Scan(x, ps, i) <= ps[|ps| - 1].y
    decreases |ps| - i
  {
    if i < |ps| {
      if x <= ps[i].x {
        var p, q := ps[i - 1], ps[i];
        SegmentEnds(p, q);
        SegmentMonotone(p.x, x, p, q);
        SegmentMonotone(x, q.x, p, q);
        ScanBounds(ps[i].x, ps, i + 1);
      } else {
        assert ps[i - 1].y <= ps[i - 1 + 1].y;
        ScanBounds(x, ps, i + 1);
      }
    }
  }

  lemma {:induction false} ScanMonotone(x: real, x': real, ps: seq<Point>, i: nat)
    requires Table(ps) && Rising(ps) && 1 <= i <= |ps| && ps[i - 1].x <= x <= x'
    ensures Scan(x, ps, i) <= Scan(x', ps, i)
    decreases |ps| - i
  {
    if i < |ps| {
      var p, q := ps[i - 1], ps[i];
      if x' <= q.x {
        SegmentMonotone(x, x', p, q);
      } else if x <= q.x {
        SegmentEnds(p, q);
        SegmentMonotone(x, q.x, p, q);
        ScanBounds(x', ps, i + 1);
      } else {
        ScanMonotone(x, x', ps, i + 1);
      }
    }
  }

  function Mirrored(ps: seq<Point>): seq<Point> {
    seq(|ps|, i requires 0 <= i < |ps| => Point(ps[i].x, -ps[i].y))
  }

  lemma SegmentMirrors(x: real, p: Point, q: Point)
    requires p.x < q.x
    ensures Segment(x, Point(p.x, -p.y), Point(q.x, -q.y)) == -Segment(x, p, q)
  {
    var a, d := (q.y - p.y) * (x - p.x), q.x - p.x;
    assert (-q.y - -p.y) * (x - p.x) == -a;
    assert (-a) / d == -(a / d);
  }

  lemma {:induction false} ScanMirrors(x: real, ps: seq<Point>, i: nat)
    requires Table(ps) && 1 <= i <= |ps|
    ensures Table(Mirrored(ps)) && Scan(x, Mirrored(ps), i) == -Scan(x, ps, i)
    decreases |ps| - i
  {
    if i < |ps| {
      SegmentMirrors(x, ps[i - 1], ps[i]);
      ScanMirrors(x, ps, i + 1);
    }
  }

  lemma Mirrors(x: real, ps: seq<Point>)
    requires Table(ps)
    ensures Table(Mirrored(ps)) && Interpolated(x, Mirrored(ps)) == -Interpolated(x, ps)
    ensures Falling(ps) ==> Rising(Mirrored(ps))
  {
    ScanMirrors(x, ps, 1);
  }

  lemma RisingMonotone(x: real, x': real, ps: seq<Point>)
    requires Table(ps) && Rising(ps) && x <= x'
    ensures ps[0].y <= Interpolated(x, ps) <= Interpolated(x', ps) <= ps[|ps| - 1].y
  {
    ScanBounds(ps[0].x, ps, 1);
    if x > ps[0].x {
      ScanMonotone(x, x', ps, 1);
      ScanBounds(x, ps, 1);
    }
    if x' > ps[0].x {
      ScanBounds(x', ps, 1);
    }
  }

  lemma FallingMonotone(x: real, x': real, ps: seq<Point>)
    requires Table(ps) && Falling(ps) && x <= x'
    ensures ps[0].y >= Interpolated(x, ps) >= Interpolated(x', ps) >= ps[|ps| - 1].y
  {
    Mirrors(x, ps);
    Mirrors(x', ps);
    RisingMonotone(x, x', Mirrored(ps));
  }

  lemma {:induction false} TableSorted(ps: seq<Point>, i: nat, j: nat)
    requires Table(ps) && i < j < |ps|
    ensures ps[i].x < ps[j].x
    decreases j
  {
    assert ps[j - 1].x < ps[j - 1 + 1].x;
    if i < j - 1 {
      TableSorted(ps, i, j - 1);
    }
  }

  /** The scan finds the knot it starts at or a later one. */
  lemma {:induction false} ScanAtKnot(ps: seq<Point>, i: nat, k: nat)
    requires Table(ps) && 1 <= i <= k < |ps|
    ensures Scan(ps[k].x, ps, i) == ps[k].y
    decreases k - i
  {
    if i == k {
      SegmentEnds(ps[k - 1], ps[k]);
    } else {
      TableSorted(ps, i, k);
      ScanAtKnot(ps, i + 1, k);
    }
  }

  /** Interpolation is exact at every knot of every table. */
  lemma ExactAtKnots(ps: seq<Point>, k: nat)
    requires Table(ps) && k < |ps|
    ensures Interpolated(ps[k].x, ps) == ps[k].y
  {
    if k > 0 {
      TableSorted(ps, 0, k);
      ScanAtKnot(ps, 1, k);
    }
  }

  // ----- rounding -----

  function Clamped(x: real): real {
    if x < 0.0 then 0.0 else if x > 100.0 then 100.0 else x
  }

  /** math.Round on a value that is not negative, at one decimal. */
  function Rounded(x: real): real {
    (Clamped(x) * 10.0 + 0.5).Floor as real / 10.0
  }

  lemma RoundedMonotone(x: real, y: real)
    requires x <= y
    ensures Rounded(x) <= Rounded(y)
  {
    assert (Clamped(x) * 10.0 + 0.5).Floor <= (Clamped(y) * 10.0 + 0.5).Floor;
  }

  lemma RoundedNear(x: real)
    ensures -0.05 <= Rounded(x) - Clamped(x) <= 0.05
    ensures 0.0 <= Rounded(x) <= 100.0
  {
    var n := (Clamped(x) * 10.0 + 0.5).Floor;
    assert n as real <= Clamped(x) * 10.0 + 0.5 < n as real + 1.0;
    assert n <= 1000;
  }

  lemma RoundedIdempotent(x: real)
    ensures Rounded(Rounded(x)) == Rounded(x)
  {
    var n := (Clamped(x) * 10.0 + 0.5).Floor;
    RoundedNear(x);
    assert Clamped(Rounded(x)) * 10.0 + 0.5 == n as real + 0.5;
    assert (n as real + 0.5).Floor == n;
  }

  // ----- the score -----

  const LATENCY: seq<Point> := [
    Point(0.0, 100.0), Point(20.0, 98.0), Point(50.0, 85.0),
    Point(100.0, 65.0), Point(200.0, 30.0), Point(500.0, 0.0)
  ]
  const LOSS: seq<Point> := [Point(0.0, 100.0), Point(0.5, 90.0), Point(1.0, 65.0), Point(2.0, 25.0), Point(5.0, 0.0)]
  const JITTER: seq<Point> := [
    Point(0.0, 100.0), Point(5.0, 95.0), Point(15.0, 75.0),
    Point(30.0, 45.0), Point(60.0, 0.0)
  ]
  const DOWNLOAD: seq<Point> := [
    Point(0.0, 0.0), Point(10.0, 25.0), Point(50.0, 55.0), Point(100.0, 75.0),
    Point(300.0, 92.0), Point(500.0, 98.0), Point(1000.0, 100.0)
  ]
  const UPLOAD: seq<Point> := [
    Point(0.0, 0.0), Point(5.0, 25.0), Point(20.0, 55.0),
    Point(50.0, 75.0), Point(100.0, 90.0), Point(300.0, 100.0)
  ]

  function Weighted(latency: real, loss: real, jitter: real, download: real, upload: real): real {
    0.30 * latency + 0.25 * loss + 0.15 * jitter + 0.20 * download + 0.10 * upload
  }

  lemma FallingTables()
    ensures Table(LATENCY) && Falling(LATENCY) && Table(LOSS) && Falling(LOSS)
  {
  }

  lemma JitterTable()
    ensures Table(JITTER) && Falling(JITTER)
  {
  }

  lemma DownloadTable()
    ensures Table(DOWNLOAD) && Rising(DOWNLOAD)
  {
  }

  lemma UploadTable()
    ensures Table(UPLOAD) && Rising(UPLOAD)
  {
  }

  lemma TablesAreTables()
    ensures Table(LATENCY) && Table(LOSS) && Table(JITTER) && Table(DOWNLOAD) && Table(UPLOAD)
    ensures Falling(LATENCY) && Falling(LOSS) && Falling(JITTER) && Rising(DOWNLOAD) && Rising(UPLOAD)
  {
    FallingTables();
    JitterTable();
    DownloadTable();
    UploadTable();
  }

  function Scored(m: Metrics): Breakdown {
    TablesAreTables();
    var latency := Rounded(Interpolated(m.latency, LATENCY));
    var loss := Rounded(Interpolated(m.loss, LOSS));
    var jitter := Rounded(Interpolated(m.jitter, JITTER));
    var download := Rounded(Interpolated(m.download, DOWNLOAD));
    var upload := Rounded(Interpolated(m.upload, UPLOAD));
    Breakdown(Rounded(Weighted(latency, loss, jitter, download, upload)), latency, loss, jitter, download, upload)
  }

  method Calculate(m: Metrics) returns (b: Breakdown)
    ensures b == Scored(m)
  {
    TablesAreTables();
    var latency := Interp(m.latency, LATENCY);
    var loss := Interp(m.loss, LOSS);
    var jitter := Interp(m.jitter, JITTER);
    var download := Interp(m.download, DOWNLOAD);
    var upload := Interp(m.upload, UPLOAD);
    b := Breakdown(0.0, latency, loss, jitter, download, upload);
    b := b.(latency := Rounded(b.latency));
    b := b.(loss := Rounded(b.loss));
    b := b.(jitter := Rounded(b.jitter));
    b := b.(download := Rounded(b.download));
    b := b.(upload := Rounded(b.upload));
    b := b.(overall := Rounded(0.30 * b.latency + 0.25 * b.loss + 0.15 * b.jitter + 0.20 * b.download
                               + 0.10 * b.upload));
  }

  /** `m` is nowhere better than `better`. */
  predicate NoBetter(m: Metrics, better: Metrics) {
    && better.latency <= m.latency && better.loss <= m.loss && better.jitter <= m.jitter
    && m.download <= better.download && m.upload <= better.upload
  }

  /** No score, overall or part, rises when a measurement gets worse, rounding included. */
  lemma ScoreMonotone(m: Metrics, better: Metrics)
    requires NoBetter(m, better)
    ensures var a, b := Scored(m), Scored(better);
            && a.latency <= b.latency && a.loss <= b.loss && a.jitter <= b.jitter
            && a.download <= b.download && a.upload <= b.upload && a.overall <= b.overall
  {
    TablesAreTables();
    FallingMonotone(better.latency, m.latency, LATENCY);
    FallingMonotone(better.loss, m.loss, LOSS);
    FallingMonotone(better.jitter, m.jitter, JITTER);
    RisingMonotone(m.download, better.download, DOWNLOAD);
    RisingMonotone(m.upload, better.upload, UPLOAD);
    RoundedMonotone(Interpolated(m.latency, LATENCY), Interpolated(better.latency, LATENCY));
    RoundedMonotone(Interpolated(m.loss, LOSS), Interpolated(better.loss, LOSS));
    RoundedMonotone(Interpolated(m.jitter, JITTER), Interpolated(better.jitter, JITTER));
    RoundedMonotone(Interpolated(m.download, DOWNLOAD), Interpolated(better.download, DOWNLOAD));
    RoundedMonotone(Interpolated(m.upload, UPLOAD), Interpolated(better.upload, UPLOAD));
    var a, b := Scored(m), Scored(better);
    RoundedMonotone(Weighted(a.latency, a.loss, a.jitter, a.download, a.upload),
                    Weighted(b.latency, b.loss, b.jitter, b.download, b.upload));
  }

  lemma PartsInRange(m: Metrics)
    ensures Table(LATENCY) && Table(LOSS) && Table(JITTER) && Table(DOWNLOAD) && Table(UPLOAD)
    ensures 0.0 <= Interpolated(m.latency, LATENCY) <= 100.0 && 0.0 <= Interpolated(m.loss, LOSS) <= 100.0
    ensures 0.0 <= Interpolated(m.jitter, JITTER) <= 100.0
    ensures 0.0 <= Interpolated(m.download, DOWNLOAD) <= 100.0 && 0.0 <= Interpolated(m.upload, UPLOAD) <= 100.0
  {
    TablesAreTables();
    FallingMonotone(m.latency, m.latency, LATENCY);
    FallingMonotone(m.loss, m.loss, LOSS);
    FallingMonotone(m.jitter, m.jitter, JITTER);
    RisingMonotone(m.download, m.download, DOWNLOAD);
    RisingMonotone(m.upload, m.upload, UPLOAD);
  }

  /** The overall score is within 0.1 of the exact weighted sum of the unrounded interpolations. */
  lemma ScoreAccurate(m: Metrics)
    ensures Table(LATENCY) && Table(LOSS) && Table(JITTER) && Table(DOWNLOAD) && Table(UPLOAD)
    ensures var exact := Weighted(Interpolated(m.latency, LATENCY), Interpolated(m.loss, LOSS),
                                  Interpolated(m.jitter, JITTER), Interpolated(m.download, DOWNLOAD),
                                  Interpolated(m.upload, UPLOAD));
            -0.1 <= Scored(m).overall - exact <= 0.1
  {
    PartsInRange(m);
    RoundedNear(Interpolated(m.latency, LATENCY));
    RoundedNear(Interpolated(m.loss, LOSS));
    RoundedNear(Interpolated(m.jitter, JITTER));
    RoundedNear(Interpolated(m.download, DOWNLOAD));
    RoundedNear(Interpolated(m.upload, UPLOAD));
    var b := Scored(m);
    RoundedNear(Weighted(b.latency, b.loss, b.jitter, b.download, b.upload));
  }

  /** The overall score lies between any bounds that the five rounded parts respect and rounding fixes. */
  lemma ScoreBetween(b: Breakdown, lo: real, hi: real)
    requires Rounded(lo) == lo && Rounded(hi) == hi
    requires lo <= b.latency <= hi && lo <= b.loss <= hi && lo <= b.jitter <= hi
    requires lo <= b.download <= hi && lo <= b.upload <= hi
    ensures lo <= Rounded(Weighted(b.latency, b.loss, b.jitter, b.download, b.upload)) <= hi
  {
    var w := Weighted(b.latency, b.loss, b.jitter, b.download, b.upload);
    assert lo <= w <= hi;
    RoundedMonotone(lo, w);
    RoundedMonotone(w, hi);
  }

  function Least(b: Breakdown): real {
    var x := if b.latency <= b.loss then b.latency else b.loss;
    var x := if x <= b.jitter then x else b.jitter;
    var x := if x <= b.download then x else b.download;
    if x <= b.upload then x else b.upload
  }

  function Greatest(b: Breakdown): real {
    var x := if b.latency >= b.loss then b.latency else b.loss;
    var x := if x >= b.jitter then x else b.jitter;
    var x := if x >= b.download then x else b.download;
    if x >= b.upload then x else b.upload
  }

  /** The overall score lies between the smallest and the largest of its rounded parts. */
  lemma OverallAmongParts(m: Metrics)
    ensures var b := Scored(m); Least(b) <= b.overall <= Greatest(b)
  {
    TablesAreTables();
    var b := Scored(m);
    RoundedIdempotent(Interpolated(m.latency, LATENCY));
    RoundedIdempotent(Interpolated(m.loss, LOSS));
    RoundedIdempotent(Interpolated(m.jitter, JITTER));
    RoundedIdempotent(Interpolated(m.download, DOWNLOAD));
    RoundedIdempotent(Interpolated(m.upload, UPLOAD));
    ScoreBetween(b, Least(b), Greatest(b));
  }

  // ----- what fixes the score -----

  lemma SegmentOnLine(x: real, p: Point, q: Point)
    requires p.x < q.x
    ensures (Segment(x, p, q) - p.y) * (q.x - p.x) == (q.y - p.y) * (x - p.x)
  {
    var d, n := q.x - p.x, (q.y - p.y) * (x - p.x);
    assert Segment(x, p, q) - p.y == n / d;
    assert n / d * d == n;
  }

  lemma {:induction false} ScanFinds(x: real, ps: seq<Point>, i: nat, k: nat)
    requires Table(ps) && 1 <= i <= k < |ps| && ps[k - 1].x < x <= ps[k].x
    ensures Scan(x, ps, i) == Segment(x, ps[k - 1], ps[k])
    decreases k - i
  {
    if i < k {
      TableRises(ps, i, k - 1);
      ScanFinds(x, ps, i + 1, k);
    }
  }

  lemma TableRises(ps: seq<Point>, i: nat, j: nat)
    requires Table(ps) && i <= j < |ps|
    ensures ps[i].x <= ps[j].x
  {
    if i < j { TableSorted(ps, i, j); }
  }

  /** Between two knots of any table interpolation runs on the straight line through them. */
  lemma LinearBetweenKnots(x: real, ps: seq<Point>, k: nat)
    requires Table(ps) && 1 <= k < |ps| && ps[k - 1].x <= x <= ps[k].x
    ensures (Interpolated(x, ps) - ps[k - 1].y) * (ps[k].x - ps[k - 1].x)
         == (ps[k].y - ps[k - 1].y) * (x - ps[k - 1].x)
  {
    if x == ps[k - 1].x {
      ExactAtKnots(ps, k - 1);
    } else {
      TableRises(ps, 0, k - 1);
      ScanFinds(x, ps, 1, k);
      SegmentOnLine(x, ps[k - 1], ps[k]);
    }
  }

  /** Outside its knots it keeps the value of the nearest one. */
  lemma ConstantOutside(x: real, ps: seq<Point>)
    requires Table(ps)
    ensures x <= ps[0].x ==> Interpolated(x, ps) == ps[0].y
    ensures x >= ps[|ps| - 1].x ==> Interpolated(x, ps) == ps[|ps| - 1].y
  {
    if |ps| > 1 {
      TableSorted(ps, 0, |ps| - 1);
    }
    if x >= ps[|ps| - 1].x && x > ps[0].x {
      ScanEnds(x, ps, 1);
    }
  }

  lemma {:induction false} ScanEnds(x: real, ps: seq<Point>, i: nat)
    requires Table(ps) && 1 <= i <= |ps| && x >= ps[|ps| - 1].x
    ensures Scan(x, ps, i) == ps[|ps| - 1].y
    decreases |ps| - i
  {
    if i < |ps| {
      TableRises(ps, i, |ps| - 1);
      if x <= ps[i].x {
        assert i == |ps| - 1 by {
          if i < |ps| - 1 { TableSorted(ps, i, |ps| - 1); }
        }
        SegmentEnds(ps[i - 1], ps[i]);
      } else {
        ScanEnds(x, ps, i + 1);
      }
    }
  }

  lemma KnotIs(ps: seq<Point>, k: nat, x: real, y: real)
    requires Table(ps) && k < |ps| && ps[k] == Point(x, y)
    ensures Interpolated(x, ps) == y
  {
    ExactAtKnots(ps, k);
  }

  lemma LatencyKnots(ps: seq<Point>)
    requires ps == LATENCY
    ensures Table(ps)
    ensures Interpolated(0.0, ps) == 100.0 && Interpolated(20.0, ps) == 98.0
    ensures Interpolated(50.0, ps) == 85.0 && Interpolated(100.0, ps) == 65.0
    ensures Interpolated(200.0, ps) == 30.0 && Interpolated(500.0, ps) == 0.0
  {
    FallingTables();
    KnotIs(ps, 0, 0.0, 100.0);
    KnotIs(ps, 1, 20.0, 98.0);
    KnotIs(ps, 2, 50.0, 85.0);
    KnotIs(ps, 3, 100.0, 65.0);
    KnotIs(ps, 4, 200.0, 30.0);
    KnotIs(ps, 5, 500.0, 0.0);
  }

  lemma LossKnots(ps: seq<Point>)
    requires ps == LOSS
    ensures Table(ps)
    ensures Interpolated(0.0, ps) == 100.0 && Interpolated(0.5, ps) == 90.0
    ensures Interpolated(1.0, ps) == 65.0 && Interpolated(2.0, ps) == 25.0
    ensures Interpolated(5.0, ps) == 0.0
  {
    FallingTables();
    KnotIs(ps, 0, 0.0, 100.0);
    KnotIs(ps, 1, 0.5, 90.0);
    KnotIs(ps, 2, 1.0, 65.0);
    KnotIs(ps, 3, 2.0, 25.0);
    KnotIs(ps, 4, 5.0, 0.0);
  }

  lemma JitterKnots(ps: seq<Point>)
    requires ps == JITTER
    ensures Table(ps)
    ensures Interpolated(0.0, ps) == 100.0 && Interpolated(5.0, ps) == 95.0
    ensures Interpolated(15.0, ps) == 75.0 && Interpolated(30.0, ps) == 45.0
    ensures Interpolated(60.0, ps) == 0.0
  {
    JitterTable();
    KnotIs(ps, 0, 0.0, 100.0);
    KnotIs(ps, 1, 5.0, 95.0);
    KnotIs(ps, 2, 15.0, 75.0);
    KnotIs(ps, 3, 30.0, 45.0);
    KnotIs(ps, 4, 60.0, 0.0);
  }

  lemma LowDownloadKnots(ps: seq<Point>)
    requires ps == DOWNLOAD
    ensures Table(ps)
    ensures Interpolated(0.0, ps) == 0.0 && Interpolated(10.0, ps) == 25.0
    ensures Interpolated(50.0, ps) == 55.0 && Interpolated(100.0, ps) == 75.0
  {
    DownloadTable();
    KnotIs(ps, 0, 0.0, 0.0);
    KnotIs(ps, 1, 10.0, 25.0);
    KnotIs(ps, 2, 50.0, 55.0);
    KnotIs(ps, 3, 100.0, 75.0);
  }

  lemma HighDownloadKnots(ps: seq<Point>)
    requires ps == DOWNLOAD
    ensures Table(ps)
    ensures Interpolated(300.0, ps) == 92.0 && Interpolated(500.0, ps) == 98.0
    ensures Interpolated(1000.0, ps) == 100.0
  {
    DownloadTable();
    KnotIs(ps, 4, 300.0, 92.0);
    KnotIs(ps, 5, 500.0, 98.0);
    KnotIs(ps, 6, 1000.0, 100.0);
  }

  lemma UploadKnots(ps: seq<Point>)
    requires ps == UPLOAD
    ensures Table(ps)
    ensures Interpolated(0.0, ps) == 0.0 && Interpolated(5.0, ps) == 25.0
    ensures Interpolated(20.0, ps) == 55.0 && Interpolated(50.0, ps) == 75.0
    ensures Interpolated(100.0, ps) == 90.0 && Interpolated(300.0, ps) == 100.0
  {
    UploadTable();
    KnotIs(ps, 0, 0.0, 0.0);
    KnotIs(ps, 1, 5.0, 25.0);
    KnotIs(ps, 2, 20.0, 55.0);
    KnotIs(ps, 3, 50.0, 75.0);
    KnotIs(ps, 4, 100.0, 90.0);
    KnotIs(ps, 5, 300.0, 100.0);
  }

  /** `x` is a multiple of a tenth, the nearest one to `y`, the upper one of two. */
  predicate NearestTenth(x: real, y: real) {
    x * 10.0 == (x * 10.0).Floor as real && x - 0.05 <= y < x + 0.05
  }

  lemma RoundedIsNearestTenth(x: real)
    ensures NearestTenth(Rounded(x), Clamped(x))
  {
    var n := (Clamped(x) * 10.0 + 0.5).Floor;
    assert Rounded(x) * 10.0 == n as real;
    assert n as real <= Clamped(x) * 10.0 + 0.5 < n as real + 1.0;
  }

  /** Every part is its own interpolation to the nearest tenth. */
  lemma PartsAreNearest(m: Metrics)
    ensures Table(LATENCY) && Table(LOSS) && Table(JITTER) && Table(DOWNLOAD) && Table(UPLOAD)
    ensures NearestTenth(Scored(m).latency, Interpolated(m.latency, LATENCY))
    ensures NearestTenth(Scored(m).loss, Interpolated(m.loss, LOSS))
    ensures NearestTenth(Scored(m).jitter, Interpolated(m.jitter, JITTER))
    ensures NearestTenth(Scored(m).download, Interpolated(m.download, DOWNLOAD))
    ensures NearestTenth(Scored(m).upload, Interpolated(m.upload, UPLOAD))
  {
    PartsInRange(m);
    RoundedIsNearestTenth(Interpolated(m.latency, LATENCY));
    RoundedIsNearestTenth(Interpolated(m.loss, LOSS));
    RoundedIsNearestTenth(Interpolated(m.jitter, JITTER));
    RoundedIsNearestTenth(Interpolated(m.download, DOWNLOAD));
    RoundedIsNearestTenth(Interpolated(m.upload, UPLOAD));
  }

  /** The overall score is the published weighting of the rounded parts, to the nearest tenth. */
  lemma OverallIsWeighted(m: Metrics)
    ensures var b := Scored(m);
            NearestTenth(b.overall, 0.30 * b.latency + 0.25 * b.loss + 0.15 * b.jitter + 0.20 * b.download
                                    + 0.10 * b.upload)
  {
    PartsInRange(m);
    RoundedNear(Interpolated(m.latency, LATENCY));
    RoundedNear(Interpolated(m.loss, LOSS));
    RoundedNear(Interpolated(m.jitter, JITTER));
    RoundedNear(Interpolated(m.download, DOWNLOAD));
    RoundedNear(Interpolated(m.upload, UPLOAD));
    var b := Scored(m);
    RoundedIsNearestTenth(Weighted(b.latency, b.loss, b.jitter, b.download, b.upload));
  }
}
