/** `server/internal/booking/domain/stay_period.go`: a stay as a half-open interval of days. */
module StayPeriods {
  import opened Common

  datatype StayPeriod = StayPeriod(checkin: Day, checkout: Day) {
    predicate Valid() {
      checkin < checkout
    }

    function Nights(): int {
      DaysBetween(checkin, checkout)
    }

    predicate Contains(d: Day) {
      checkin <= d < checkout
    }

    predicate Overlaps(other: StayPeriod) {
      checkin < other.checkout && other.checkin < checkout
    }
  }

  function DaysBetween(from: Day, to: Day): int {
    to - from
  }

  datatype PeriodError = ErrInvalidStayPeriod

  function NewStayPeriod(checkin: Instant, checkout: Instant): (r: Result<StayPeriod, PeriodError>)
    ensures r.Ok? ==> r.value.Valid() && forall d :: r.value.Contains(d) <==> DayOf(checkin) <= d < DayOf(checkout)
    ensures r.Err? <==> DayOf(checkout) <= DayOf(checkin)
  {
    PeriodOf(DayOf(checkin), DayOf(checkout))
  }

  function PeriodOf(checkin: Day, checkout: Day): Result<StayPeriod, PeriodError> {
    if !(checkout > checkin) then Err(ErrInvalidStayPeriod) else Ok(StayPeriod(checkin, checkout))
  }

  /** The nights of a stay in ascending order, each exactly once, and nothing else. */
  ghost predicate AreTheNights(dates: seq<Day>, p: StayPeriod) {
    && (forall i, j :: 0 <= i < j < |dates| ==> dates[i] < dates[j])
    && (forall d :: d in dates <==> p.Contains(d))
  }

  method Dates(p: StayPeriod) returns (dates: seq<Day>)
    ensures AreTheNights(dates, p)
    ensures |dates| == if p.Valid() then p.Nights() else 0
    ensures forall i :: 0 <= i < |dates| ==> dates[i] == p.checkin + i
  {
    dates := [];
    var d := p.checkin;
    while d < p.checkout
      invariant d == p.checkin + |dates|
      invariant p.Valid() ==> d <= p.checkout
      invariant !p.Valid() ==> dates == []
      invariant forall i :: 0 <= i < |dates| ==> dates[i] == p.checkin + i
    {
      dates := dates + [d];
      d := d + 1;
    }
    forall x ensures x in dates <==> p.Contains(x) {
      if p.Contains(x) {
        assert dates[x - p.checkin] == x;
      }
    }
  }

  /** `Overlaps`, which compares end points only, holds exactly when the two stays share a night. */
  lemma OverlapMeansSharedNight(p: StayPeriod, q: StayPeriod)
    requires p.Valid() && q.Valid()
    ensures p.Overlaps(q) <==> exists d :: p.Contains(d) && q.Contains(d)
  {
    if p.Overlaps(q) {
      var d := if p.checkin < q.checkin then q.checkin else p.checkin;
      assert p.Contains(d) && q.Contains(d);
    }
  }
}
