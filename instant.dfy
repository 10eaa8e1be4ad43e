/** Instant: a point in time as JVM Long milliseconds since the epoch, with Duration
    arithmetic and comparison.  Long arithmetic wraps around; Duration (not part of this model
    beyond its Long `duration`) is a value holding one Long. */
module Instants {
  import opened Wrappers
  import opened Numerics

  type Long = v: int | LONG_MIN <= v <= LONG_MAX

  datatype Duration = Duration(duration: Long)

  datatype Instant = Instant(timeSinceEpoch: Long)

  /** add(duration): the instant that much later, the Long sum wrapping around. */
  function Add(i: Instant, d: Duration): (r: Instant)
    ensures (r.timeSinceEpoch - (i.timeSinceEpoch + d.duration)) % TWO_64 == 0
    ensures IsLong(i.timeSinceEpoch + d.duration) ==> r.timeSinceEpoch == i.timeSinceEpoch + d.duration
  {
    Instant(WrapLong(i.timeSinceEpoch + d.duration))
  }

  /** sub(duration): the instant that much earlier, the Long difference wrapping around. */
  function Sub(i: Instant, d: Duration): (r: Instant)
    ensures (r.timeSinceEpoch - (i.timeSinceEpoch - d.duration)) % TWO_64 == 0
    ensures IsLong(i.timeSinceEpoch - d.duration) ==> r.timeSinceEpoch == i.timeSinceEpoch - d.duration
  {
    Instant(WrapLong(i.timeSinceEpoch - d.duration))
  }

  /** to(instant): the duration from this instant to the other one. */
  function To(i: Instant, other: Instant): (r: Duration)
    ensures (r.duration - (other.timeSinceEpoch - i.timeSinceEpoch)) % TWO_64 == 0
    ensures IsLong(other.timeSinceEpoch - i.timeSinceEpoch) ==> r.duration == other.timeSinceEpoch - i.timeSinceEpoch
  {
    Duration(WrapLong(other.timeSinceEpoch - i.timeSinceEpoch))
  }

  /** Adding then subtracting a duration gives the instant back, even when the sum wraps. */
  lemma {:induction false} AddThenSub(i: Instant, d: Duration)
    ensures Sub(Add(i, d), d) == i
  {
    var t := i.timeSinceEpoch;
    var r := Add(i, d).timeSinceEpoch;
    var p := (r - (t + d.duration)) / TWO_64;
    assert r - (t + d.duration) == p * TWO_64;
    assert (t - (r - d.duration)) % TWO_64 == 0 by {
      assert t - (r - d.duration) == -p * TWO_64;
    }
    WrapUnique(r - d.duration, t);
  }

  /** The duration from an instant to the instant a duration later is that duration, even
      when the sum wraps. */
  lemma {:induction false} ToAfterAdd(i: Instant, d: Duration)
    ensures To(i, Add(i, d)) == d
  {
    var t := i.timeSinceEpoch;
    var r := Add(i, d).timeSinceEpoch;
    var p := (r - (t + d.duration)) / TWO_64;
    assert r - (t + d.duration) == p * TWO_64;
    assert (d.duration - (r - t)) % TWO_64 == 0 by {
      assert d.duration - (r - t) == -p * TWO_64;
    }
    WrapUnique(r - t, d.duration);
  }

  /** compareTo(o) as written: the sign of the Long difference, which wraps around when the
      two instants are more than LONG_MAX apart. */
  function CompareToAsWritten(i: Instant, o: Instant): (r: int)
    ensures r in {-1, 0, 1}
    ensures r == 0 <==> i == o
    ensures IsLong(i.timeSinceEpoch - o.timeSinceEpoch) ==> r == CompareTo(i, o)
  {
    var delta := WrapLong(i.timeSinceEpoch - o.timeSinceEpoch);
    if delta == 0 then
      assert i.timeSinceEpoch == o.timeSinceEpoch by {
        WrapUnique(i.timeSinceEpoch - o.timeSinceEpoch, 0);
      }
      0
    else if delta > 0 then 1
    else -1
  }

  /** The wrapped difference puts the earliest instant after a later one, and orders some
      pairs the same way in both directions. */
  lemma CompareToOverflow()
    ensures LONG_MIN < 1 && CompareToAsWritten(Instant(LONG_MIN), Instant(1)) == 1
    ensures CompareToAsWritten(Instant(0), Instant(LONG_MIN)) == CompareToAsWritten(Instant(LONG_MIN), Instant(0)) == -1
  {
  }

  /** compareTo(o) as intended: the sign of the exact difference of the timestamps. */
  function CompareTo(i: Instant, o: Instant): (r: int)
    ensures r == 1 <==> i.timeSinceEpoch > o.timeSinceEpoch
    ensures r == 0 <==> i == o
    ensures r == -1 <==> i.timeSinceEpoch < o.timeSinceEpoch
  {
    if i.timeSinceEpoch > o.timeSinceEpoch then 1
    else if i.timeSinceEpoch == o.timeSinceEpoch then 0
    else -1
  }

  /** The intended comparison is antisymmetric and transitive. */
  lemma CompareToOrder(a: Instant, b: Instant, c: Instant)
    ensures CompareTo(a, b) == -CompareTo(b, a)
    ensures CompareTo(a, b) == 1 && CompareTo(b, c) == 1 ==> CompareTo(a, c) == 1
  {
  }

  /** equals(obj): false for anything that is not an Instant (None here); otherwise equal
      timestamps. */
  function Equals(i: Instant, obj: Option<Instant>): (r: bool)
    ensures r <==> obj == Some(i)
  {
    if obj.None? then false else i.timeSinceEpoch == obj.value.timeSinceEpoch
  }

  /** equals agrees with compareTo, as written and as intended. */
  lemma EqualsIffCompareZero(i: Instant, o: Instant)
    ensures Equals(i, Some(o)) <==> CompareTo(i, o) == 0
    ensures Equals(i, Some(o)) <==> CompareToAsWritten(i, o) == 0
  {
  }
}
