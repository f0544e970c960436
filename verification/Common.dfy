/** Values shared by every part of the model: identifiers, time and small set facts. */
module Common {

  datatype Option<+T> = None | Some(value: T)

  datatype Result<+T, +E> = Ok(value: T) | Err(error: E)

  /** A `uuid.UUID`; freshness of generated values is modelled by a counter. */
  type Uuid = nat

  /** A point in time, in nanoseconds. */
  type Instant = int

  /** A calendar date, as a day number. */
  type Day = int

  const NANOS_PER_DAY: int := 86_400_000_000_000

  /** How long a temporary hold lives: thirty minutes. */
  const HOLD_TTL: int := 1_800_000_000_000

  /** `truncateToDate`: the day an instant falls on (floor, also before the epoch). */
  function DayOf(t: Instant): Day {
    t / NANOS_PER_DAY
  }

  /** A day is 24 hours from midnight to midnight, and a temporary hold lives for thirty minutes. */
  lemma DaysAndHoldTime(t: Instant)
    ensures var day := 24 * 60 * 60 * 1_000_000_000; DayOf(t) * day <= t < DayOf(t) * day + day
    ensures HOLD_TTL == 30 * 60 * 1_000_000_000
  {
  }

  /** An inventory is identified by room type and date. */
  datatype InventoryId = InventoryId(roomTypeId: Uuid, date: Day)

  function Interval(lo: int, hi: int): (r: set<int>)
    ensures forall i :: i in r <==> lo <= i < hi
    decreases hi - lo
  {
    if lo >= hi then {} else Interval(lo, hi - 1) + {hi - 1}
  }

  lemma {:induction false} IntervalSize(lo: int, hi: int)
    requires lo <= hi
    ensures |Interval(lo, hi)| == hi - lo
    decreases hi - lo
  {
    if lo < hi {
      IntervalSize(lo, hi - 1);
    }
  }

  lemma SubsetSize<T>(a: set<T>, b: set<T>)
    requires a <= b
    ensures |a| <= |b|
    ensures |a| == |b| <==> a == b
  {
    assert b == a + (b - a);
    assert |b| == |a| + |b - a|;
  }

  /** The values of an injective map are as many as its keys. */
  lemma {:induction false} InjectiveValues<K, V>(m: map<K, V>)
    requires forall a, b :: a in m && b in m && a != b ==> m[a] != m[b]
    ensures |m.Values| == |m|
    decreases |m|
  {
    if m == map[] {
      assert m.Values == {};
    } else {
      var k :| k in m;
      var rest := m - {k};
      InjectiveValues(rest);
      forall v ensures v in m.Values <==> v in rest.Values + {m[k]} {
        if v in m.Values {
          var a :| a in m && m[a] == v;
          assert a == k || (a in rest && rest[a] == v);
        }
      }
      assert m.Values == rest.Values + {m[k]};
      assert |m| == |rest| + 1 by {
        assert m.Keys == rest.Keys + {k};
      }
    }
  }
}
