/** `getTimeAgo`: how long ago a process last logged activity, as the
    report screen and the pending export print it ("3 weeks ago",
    "Just now", "Future"). The current time is a parameter. */
module TimeAgo {
  import opened Common

  /** The `lastLoggedAt` value: absent or empty, a text `new Date` cannot
      parse, or an instant in milliseconds since the epoch. */
  datatype Stamp = Missing | Unparseable | At(ms: int)

  datatype Unit = Minute | Hour | Day | Week | Month | Year

  /** What `getTimeAgo` decides before it formats anything. */
  datatype Age = NoStamp | Future | JustNow | Ago(count: nat, unit: Unit)

  const MsPerMinute: nat := 60 * 1000
  const MsPerHour: nat := 60 * MsPerMinute
  const MsPerDay: nat := 24 * MsPerHour

  /** The unit ladder, from the finest unit up. */
  function Rank(a: Age): nat
  {
    match a
    case Ago(_, u) =>
      (match u
       case Minute => 1
       case Hour => 2
       case Day => 3
       case Week => 4
       case Month => 5
       case Year => 6)
    case _ => 0
  }

  /** The branch ladder for a non-negative difference: each unit is derived
      from the previous one by floor division, months and years from whole
      days with the average lengths 30.44 = 761/25 and 365.25 = 1461/4 days,
      and the first non-zero unit from years down wins. */
  function Elapsed(diffMs: nat): (a: Age)
    ensures a.JustNow? || (a.Ago? && a.count >= 1)
  {
    var seconds := diffMs / 1000;
    var minutes := seconds / 60;
    var hours := minutes / 60;
    var days := hours / 24;
    var weeks := days / 7;
    var months := days * 25 / 761;
    var years := days * 4 / 1461;
    if years > 0 then Ago(years, Year)
    else if months > 0 then Ago(months, Month)
    else if weeks > 0 then Ago(weeks, Week)
    else if days > 0 then Ago(days, Day)
    else if hours > 0 then Ago(hours, Hour)
    else if minutes > 0 then Ago(minutes, Minute)
    else JustNow
  }

  /** `getTimeAgo(lastLoggedAt)` evaluated at `now`. A text that does not
      parse gives NaN, which fails every comparison, so it reads "Just now". */
  function Classify(now: int, last: Stamp): (a: Age)
    ensures last.Missing? <==> a.NoStamp?
    ensures a.Future? <==> last.At? && now < last.ms
    ensures last.Unparseable? ==> a.JustNow?
  {
    match last
    case Missing => NoStamp
    case Unparseable => JustNow
    case At(ms) => if now - ms < 0 then Future else Elapsed(now - ms)
  }

  function UnitName(u: Unit): string
  {
    match u
    case Minute => "minute"
    case Hour => "hour"
    case Day => "day"
    case Week => "week"
    case Month => "month"
    case Year => "year"
  }

  /** The text printed for an age: the count, the unit, an `s` for more than
      one, and " ago". */
  function Render(a: Age): (r: string)
    ensures a.NoStamp? <==> r == ""
    ensures a.Ago? ==> r == NatToString(a.count) + " " + UnitName(a.unit) + (if a.count > 1 then "s" else "") + " ago"
  {
    match a
    case NoStamp => ""
    case Future => "Future"
    case JustNow => "Just now"
    case Ago(n, u) => NatToString(n) + " " + UnitName(u) + (if n > 1 then "s" else "") + " ago"
  }

  function GetTimeAgo(now: int, last: Stamp): (r: string)
    ensures r == "" <==> last.Missing?
    ensures last.At? && now < last.ms ==> r == "Future"
  {
    Render(Classify(now, last))
  }

  /** The thresholds, stated on the whole elapsed time: which unit is chosen
      and what count is printed, for every difference. */
  lemma ElapsedThresholds(diffMs: nat)
    ensures var a := Elapsed(diffMs); var days := diffMs / MsPerDay;
      && (a == JustNow <==> diffMs < MsPerMinute)
      && (a.Ago? && a.unit == Minute <==> MsPerMinute <= diffMs < MsPerHour)
      && (a.Ago? && a.unit == Hour <==> MsPerHour <= diffMs < MsPerDay)
      && (a.Ago? && a.unit == Day <==> 1 <= days < 7)
      && (a.Ago? && a.unit == Week <==> 7 <= days < 31)
      && (a.Ago? && a.unit == Month <==> 31 <= days < 366)
      && (a.Ago? && a.unit == Year <==> 366 <= days)
      && (a.Ago? && a.unit == Minute ==> a.count == diffMs / MsPerMinute)
      && (a.Ago? && a.unit == Hour ==> a.count == diffMs / MsPerHour)
      && (a.Ago? && a.unit == Day ==> a.count == days)
      && (a.Ago? && a.unit == Week ==> a.count == days / 7)
  {
    var minutes := diffMs / 1000 / 60;
    assert minutes == diffMs / MsPerMinute;
    var hours := minutes / 60;
    assert hours == diffMs / MsPerHour;
    var days := hours / 24;
    assert days == diffMs / MsPerDay;
  }

  /** The rung of the ladder, read off the thresholds. */
  function Tier(diffMs: nat, days: nat): nat
  {
    if diffMs < MsPerMinute then 0
    else if diffMs < MsPerHour then 1
    else if diffMs < MsPerDay then 2
    else if days < 7 then 3
    else if days < 31 then 4
    else if days < 366 then 5
    else 6
  }

  lemma RankIsTier(diffMs: nat)
    ensures Rank(Elapsed(diffMs)) == Tier(diffMs, diffMs / MsPerDay)
  {
    ElapsedThresholds(diffMs);
  }

  lemma DaysMonotone(a: nat, b: nat)
    requires a <= b
    ensures a / MsPerDay <= b / MsPerDay
  {
    assert MsPerDay == 86400000;
  }

  /** A later moment never shows a finer unit: the printed unit only climbs
      the ladder as time passes. */
  lemma RankMonotone(d1: nat, d2: nat)
    requires d1 <= d2
    ensures Rank(Elapsed(d1)) <= Rank(Elapsed(d2))
  {
    RankIsTier(d1);
    RankIsTier(d2);
    DaysMonotone(d1, d2);
    var days1, days2 := d1 / MsPerDay, d2 / MsPerDay;
    assert Tier(d1, days1) <= Tier(d2, days2);
  }

  /** The plural `s` appears exactly when the count exceeds one. */
  lemma PluralRule(n: nat, u: Unit)
    requires n >= 1
    ensures var r := Render(Ago(n, u));
      |r| >= 5 && r[|r| - 4..] == " ago" && (r[|r| - 5] == 's' <==> n > 1)
  {
    var r := Render(Ago(n, u));
    var digits := NatToString(n);
    var name := UnitName(u);
    if n > 1 {
      assert r == digits + " " + name + "s" + " ago";
    } else {
      assert r == digits + " " + name + " ago";
      assert r[|r| - 5] == name[|name| - 1];
    }
  }
}
