/** The arithmetic of the progress dashboard: the accuracy and topic
    percentages, the hours-and-minutes display of the time spent, and the
    badge tier of an activity score. */
module ProgressDashboard {
  import opened Text
  import opened Wrappers

  // ---------------------------------------------------------------------------
  // Time spent

  /** The quotient of `a` by `b` rounded toward zero. */
  function TruncQuot(a: int, b: int): int
    requires b > 0
  {
    if a >= 0 then a / b else -((-a) / b)
  }

  /** JavaScript `a % b` for a positive divisor: what is left of `a` after
      taking out the quotient rounded toward zero, so it takes the sign of
      `a`. */
  function JsRem(a: int, b: int): (r: int)
    requires b > 0
    ensures a == b * TruncQuot(a, b) + r
    ensures a >= 0 ==> 0 <= r < b
    ensures a < 0 ==> -b < r <= 0
  {
    if a >= 0 then a % b
    else
      var q := (-a) / b;
      assert -a == b * q + (-a) % b;
      assert b * TruncQuot(a, b) == -(b * q);
      -((-a) % b)
  }

  datatype Duration = Duration(hours: int, minutes: int)

  /** `Math.floor(t / 60)` hours and `t % 60` minutes. For a non-negative
      number of minutes the two add back up to it with the minutes below 60;
      for a negative one the floored hours and the truncated minutes do not
      agree, and the pair falls an hour short whenever the minutes are not
      zero. */
  function SplitMinutes(t: int): (r: Duration)
    ensures t >= 0 ==> r.hours >= 0 && 0 <= r.minutes < 60 && r.hours * 60 + r.minutes == t
    ensures t < 0 ==>
              && -60 < r.minutes <= 0
              && r.hours * 60 + r.minutes + (if r.minutes != 0 then 60 else 0) == t
  {
    // Dafny's division rounds toward negative infinity for a positive
    // divisor, as Math.floor of the quotient does.
    Duration(t / 60, JsRem(t, 60))
  }

  /** The time label: hours, `h `, minutes, `m`. For a non-negative time the
      label is the numeral of the hours, then `h `, then the numeral of the
      minutes, then `m`, and the numerals read back as hours and minutes
      that make up the time. */
  function TimeLabel(t: int): (r: String)
    ensures t >= 0 ==>
              exists hs: String, ms: String ::
                && Numeral(hs)
                && Numeral(ms)
                && r == hs + "h " + ms + "m"
                && DecimalValue(hs) * 60 + DecimalValue(ms) == t
                && DecimalValue(ms) < 60
  {
    var d := SplitMinutes(t);
    var r := IntToString(d.hours) + "h " + IntToString(d.minutes) + "m";
    if t >= 0 then
      var hs, ms := NatToString(d.hours), NatToString(d.minutes);
      assert r == hs + "h " + ms + "m";
      r
    else r
  }

  /** The label of a non-negative time is the only one of its shape: any
      two numerals that read as whole hours and fewer than 60 minutes making
      up the time spell it. */
  lemma TimeLabelDetermined(t: int, hs: String, ms: String)
    requires t >= 0 && Numeral(hs) && Numeral(ms)
    requires DecimalValue(ms) < 60 && DecimalValue(hs) * 60 + DecimalValue(ms) == t
    ensures TimeLabel(t) == hs + "h " + ms + "m"
  {
    var h, m := DecimalValue(hs), DecimalValue(ms);
    assert h == t / 60 && m == t % 60;
    NumeralUnique(hs, h);
    NumeralUnique(ms, m);
  }

  // ---------------------------------------------------------------------------
  // Percentages

  /** `Math.round((num / den) * 100)` over exact rationals: the integer
      nearest to `100 * num / den`, halves rounding up. A zero denominator
      has no percentage (JavaScript produces `NaN` or an infinity). */
  function RoundedPercent(num: int, den: nat): (r: Option<int>)
    ensures den == 0 <==> r.None?
    ensures den > 0 ==> 2 * den * r.value - den <= 200 * num < 2 * den * r.value + den
    ensures den > 0 && 0 <= num <= den ==> 0 <= r.value <= 100
  {
    if den == 0 then None
    else
      var q := (200 * num + den) / (2 * den);
      PercentBounds(num, den, q);
      Some(q)
  }

  /** The floored quotient `q` of `200 * num + den` by `2 * den` lies within
      half a unit of `100 * num / den`, and within 0..100 for a fraction in
      0..1. */
  lemma PercentBounds(num: int, den: nat, q: int)
    requires den > 0
    requires q == (200 * num + den) / (2 * den)
    ensures 2 * den * q - den <= 200 * num < 2 * den * q + den
    ensures 0 <= num <= den ==> 0 <= q <= 100
  {
    var a, b := 200 * num + den, 2 * den;
    assert b * q <= a < b * q + b by {
      assert a == b * q + a % b;
    }
    if 0 <= num <= den {
      if q < 0 {
        MulStep(b, q, 0);
      } else if q > 100 {
        MulStep(b, 100, q);
      }
    }
  }

  /** Multiplying by a positive factor keeps a gap of at least one unit as a
      gap of at least the factor. */
  lemma MulStep(c: int, x: int, y: int)
    requires c > 0 && x < y
    ensures c * x + c <= c * y
  {
    var d := y - x;
    assert c * y == c * x + c * d by {
      assert y == x + d;
    }
    assert c * d >= c by {
      assert c * d == c + c * (d - 1);
    }
  }

  /** The nearest-integer bound determines the percentage: it is the only
      integer within half a unit of `100 * num / den`. */
  lemma PercentUnique(num: int, den: nat, k: int)
    requires den > 0
    requires 2 * den * k - den <= 200 * num < 2 * den * k + den
    ensures RoundedPercent(num, den) == Some(k)
  {
    var q := RoundedPercent(num, den).value;
    if k < q {
      MulStep(2 * den, k, q);
    } else if k > q {
      MulStep(2 * den, q, k);
    }
  }

  /** More correct answers never lower the percentage. */
  lemma PercentMonotone(n1: int, n2: int, den: nat)
    requires den > 0 && n1 <= n2
    ensures RoundedPercent(n1, den).value <= RoundedPercent(n2, den).value
  {
    var q1, q2 := RoundedPercent(n1, den).value, RoundedPercent(n2, den).value;
    if q1 > q2 {
      MulStep(2 * den, q2, q1);
    }
  }

  // ---------------------------------------------------------------------------
  // Score badges

  /** The badge variant of an activity score. */
  datatype Tier = Default | Secondary | Destructive

  function TierOf(score: real): (t: Tier)
    ensures t == Default <==> score >= 85.0
    ensures t == Secondary <==> 70.0 <= score < 85.0
    ensures t == Destructive <==> score < 70.0
  {
    if score >= 85.0 then Default else if score >= 70.0 then Secondary else Destructive
  }

  /** The place of a tier from worst to best. */
  function Rank(t: Tier): nat {
    match t
    case Destructive => 0
    case Secondary => 1
    case Default => 2
  }

  /** A higher score never gets a worse badge. */
  lemma TierMonotone(s1: real, s2: real)
    requires s1 <= s2
    ensures Rank(TierOf(s1)) <= Rank(TierOf(s2))
  {
  }

  /** The extra class names of a badge: the gradient of its tier, or none. */
  function BadgeClass(score: real): (c: String)
    ensures c == "" <==> TierOf(score) == Destructive
    ensures TierOf(score) == Default ==> c == "gradient-primary text-white"
    ensures TierOf(score) == Secondary ==> c == "gradient-secondary text-white"
  {
    if score >= 85.0 then "gradient-primary text-white"
    else if score >= 70.0 then "gradient-secondary text-white"
    else ""
  }

  // ---------------------------------------------------------------------------
  // The figures shown

  datatype Activity = Activity(topic: String, score: real, date: String)

  datatype ProgressData = ProgressData(
    totalQuestions: nat,
    correctAnswers: nat,
    currentStreak: nat,
    timeSpent: int,
    topicsCompleted: nat,
    totalTopics: nat,
    recentActivity: seq<Activity>,
    weakAreas: seq<String>)

  /** What the dashboard shows for its data. */
  datatype Figures = Figures(accuracy: Option<int>, topicProgress: Option<int>, time: String, tiers: seq<Tier>)

  function Show(d: ProgressData): (f: Figures)
    ensures f.accuracy == RoundedPercent(d.correctAnswers, d.totalQuestions)
    ensures f.topicProgress == RoundedPercent(d.topicsCompleted, d.totalTopics)
    ensures f.time == TimeLabel(d.timeSpent)
    ensures |f.tiers| == |d.recentActivity|
    ensures forall i :: 0 <= i < |f.tiers| ==> f.tiers[i] == TierOf(d.recentActivity[i].score)
    ensures d.totalQuestions > 0 && d.correctAnswers <= d.totalQuestions ==>
              f.accuracy.Some? && 0 <= f.accuracy.value <= 100
    ensures d.totalTopics > 0 && d.topicsCompleted <= d.totalTopics ==>
              f.topicProgress.Some? && 0 <= f.topicProgress.value <= 100
  {
    Figures(RoundedPercent(d.correctAnswers, d.totalQuestions),
            RoundedPercent(d.topicsCompleted, d.totalTopics),
            TimeLabel(d.timeSpent),
            seq(|d.recentActivity|, i requires 0 <= i < |d.recentActivity| => TierOf(d.recentActivity[i].score)))
  }

  /** The data the dashboard is built with. */
  const Mock: ProgressData := ProgressData(
    156, 132, 7, 245, 12, 20,
    [Activity("Algebra", 85.0, "2024-01-15"),
     Activity("Geometry", 92.0, "2024-01-14"),
     Activity("Physics - Motion", 78.0, "2024-01-13"),
     Activity("Chemistry - Acids", 88.0, "2024-01-12")],
    ["Trigonometry", "Organic Chemistry", "Wave Motion"])

  /** 245 minutes read as four hours and five minutes. */
  lemma MockTime()
    ensures TimeLabel(Mock.timeSpent) == "4h 5m"
  {
    var d := SplitMinutes(Mock.timeSpent);
    assert d == Duration(4, 5);
    assert IntToString(4) == "4" && IntToString(5) == "5";
  }

  /** The mock data shows 85% accuracy (132 of 156), 60% of topics (12 of
      20), 4h 5m, and one secondary badge among default ones. */
  lemma MockFigures()
    ensures Show(Mock) == Figures(Some(85), Some(60), "4h 5m", [Default, Default, Secondary, Default])
  {
    PercentUnique(132, 156, 85);
    PercentUnique(12, 20, 60);
    MockTime();
  }
}
