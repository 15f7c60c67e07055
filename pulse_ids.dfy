/**
 * Pulse-id alignment performed when a bsread file is read: which shots are
 * kept, in which order, and which of the kept shots are dark.
 *
 * Without an events channel the shots with pulse id 0 are dropped and the
 * optional dark-shot filter is applied to the remaining ids. With an events
 * channel the kept ids are those present in both channels (`np.intersect1d`),
 * minus a common id 0, and the dark flag of each comes from the events data.
 */
module PulseIds {
  import opened Wrappers
  import opened Errors
  import opened Indexing
  import opened Waveforms

  /** A caller-supplied predicate over the whole pulse-id array: one flag per id, `true` for a dark shot. */
  type DarkShotFilter = seq<nat> -> seq<bool>

  predicate StrictlyIncreasing(s: seq<nat>) {
    forall i, j :: 0 <= i < j < |s| ==> s[i] < s[j]
  }

  lemma ConsIncreasing(h: nat, t: seq<nat>)
    requires StrictlyIncreasing(t) && forall y :: y in t ==> h < y
    ensures StrictlyIncreasing([h] + t)
  {
    forall i, j | 0 <= i < j < |[h] + t| ensures ([h] + t)[i] < ([h] + t)[j] {
      if i > 0 {
        assert ([h] + t)[i] == t[i - 1] && ([h] + t)[j] == t[j - 1];
      } else {
        assert ([h] + t)[j] == t[j - 1] && t[j - 1] in t;
      }
    }
  }

  // ---------------------------------------------------------------------------
  // np.unique and np.intersect1d(..., return_indices=True)
  // ---------------------------------------------------------------------------

  /** Inserts `x` into an ascending duplicate-free sequence, keeping it so. */
  function Insert(x: nat, s: seq<nat>): (r: seq<nat>)
    requires StrictlyIncreasing(s)
    ensures StrictlyIncreasing(r)
    ensures forall y :: y in r <==> y == x || y in s
  {
    if s == [] then [x]
    else if x < s[0] then [x] + s
    else if x == s[0] then s
    else
      var rest := Insert(x, s[1..]);
      assert forall y :: y in s[1..] ==> s[0] < y;
      ConsIncreasing(s[0], rest);
      [s[0]] + rest
  }

  /** `np.unique(a)`: the distinct values of `a`, ascending. */
  function Unique(a: seq<nat>): (u: seq<nat>)
    ensures StrictlyIncreasing(u)
    ensures forall y :: y in u <==> y in a
  {
    if a == [] then [] else Insert(a[0], Unique(a[1..]))
  }

  /** The entries of an ascending sequence that also occur in `b`. */
  function Common(s: seq<nat>, b: seq<nat>): (r: seq<nat>)
    requires StrictlyIncreasing(s)
    ensures StrictlyIncreasing(r)
    ensures forall y :: y in r <==> y in s && y in b
  {
    if s == [] then []
    else if s[0] in b then
      var rest := Common(s[1..], b);
      assert forall y :: y in s[1..] ==> s[0] < y;
      ConsIncreasing(s[0], rest);
      [s[0]] + rest
    else Common(s[1..], b)
  }

  /** Position of the first occurrence of `x` in `s`. */
  function FirstIndex(s: seq<nat>, x: nat): (i: nat)
    requires x in s
    ensures i < |s| && s[i] == x
    ensures forall j :: 0 <= j < i ==> s[j] != x
  {
    if s[0] == x then 0 else 1 + FirstIndex(s[1..], x)
  }

  /** `FirstIndex` is the only position that is a first occurrence. */
  lemma FirstIndexUnique(s: seq<nat>, x: nat, i: nat)
    requires i < |s| && s[i] == x && forall j :: 0 <= j < i ==> s[j] != x
    ensures FirstIndex(s, x) == i
  {
  }

  /** `index[k]` is the position of the first occurrence of `values[k]` in `a`, for every k. */
  predicate FirstOccurrences(a: seq<nat>, values: seq<nat>, index: seq<nat>) {
    |index| == |values| &&
    forall k :: 0 <= k < |values| ==>
      index[k] < |a| && a[index[k]] == values[k] && forall j :: 0 <= j < index[k] ==> a[j] != values[k]
  }

  /** Dropping the same entries from the values and from their positions keeps them paired. */
  lemma CompressFirstOccurrences(a: seq<nat>, values: seq<nat>, index: seq<nat>, keep: seq<bool>)
    requires FirstOccurrences(a, values, index) && |keep| == |values|
    ensures FirstOccurrences(a, Compress(values, keep), Compress(index, keep))
  {
    CompressIsTake(values, keep);
    CompressIsTake(index, keep);
  }

  /** The three arrays `np.intersect1d(a, b, return_indices=True)` returns. */
  datatype Intersection = Intersection(values: seq<nat>, index: seq<nat>, otherIndex: seq<nat>)

  /**
   * `np.intersect1d(a, b, return_indices=True)`: the values common to both
   * arrays, ascending and without duplicates, with the position of the first
   * occurrence of each in `a` and in `b`.
   */
  function Intersect1d(a: seq<nat>, b: seq<nat>): (r: Intersection)
    ensures StrictlyIncreasing(r.values)
    ensures forall y :: y in r.values <==> y in a && y in b
    ensures FirstOccurrences(a, r.values, r.index) && FirstOccurrences(b, r.values, r.otherIndex)
  {
    var values := Common(Unique(a), b);
    Intersection(values,
                 seq(|values|, k requires 0 <= k < |values| => FirstIndex(a, values[k])),
                 seq(|values|, k requires 0 <= k < |values| => FirstIndex(b, values[k])))
  }

  // ---------------------------------------------------------------------------
  // Alignment
  // ---------------------------------------------------------------------------

  /** `pulse_id != 0`. */
  function NonZero(ids: seq<nat>): (mask: seq<bool>)
    ensures |mask| == |ids|
    ensures forall i :: 0 <= i < |ids| ==> (mask[i] <==> ids[i] != 0)
  {
    seq(|ids|, i requires 0 <= i < |ids| => ids[i] != 0)
  }

  /** The selection of shots to keep and, when a dark-shot strategy is configured, their dark flags. */
  datatype Alignment = Alignment(index: Selector, isDark: Option<seq<bool>>)

  /**
   * The branches of `_read_bsread_file` without an events channel: drop the
   * shots with pulse id 0; with a dark-shot filter, its flags restricted to
   * the kept shots (`dark_shot_filter(pulse_id)[index]`).
   */
  function AlignWithoutEvents(pulseId: seq<nat>, filter: Option<DarkShotFilter>): Result<Alignment, Error> {
    var mask := NonZero(pulseId);
    match filter
    case None => Ok(Alignment(BoolMask(mask), None))
    case Some(f) =>
      var flags :- Select(f(pulseId), BoolMask(mask));
      Ok(Alignment(BoolMask(mask), Some(flags)))
  }

  /** `astype(bool)` of an events value: anything but zero, NaN included, is `true`. */
  predicate Flagged(v: Sample) {
    v.NaN? || v.value != 0.0
  }

  /**
   * `intersect1d`'s result without the common id 0, if there is one; the
   * source filters the two index arrays only when some common id is 0.
   */
  function DropZero(common: Intersection): Intersection {
    var values := common.values;
    var isZero := seq(|values|, k requires 0 <= k < |values| => values[k] == 0);
    var keep := seq(|values|, k requires 0 <= k < |values| => !isZero[k]);
    if AnyTrue(isZero) && |common.index| == |values| && |common.otherIndex| == |values| then
      Intersection(Compress(values, keep), Compress(common.index, keep), Compress(common.otherIndex, keep))
    else common
  }

  /**
   * The events-channel branch of `_read_bsread_file`: intersect the two
   * channels' pulse ids, drop a common id 0, and read the dark flag of each
   * kept shot from column `darkShotEvent` of the events data.
   */
  function AlignWithEvents(pulseId: seq<nat>, eventsPulseId: seq<nat>, eventsData: Rows,
                           eventsWidth: nat, darkShotEvent: int): Result<Alignment, Error>
  {
    var kept := DropZero(Intersect1d(pulseId, eventsPulseId));
    var eventRows :- Select(eventsData, Positions(kept.otherIndex));
    var column :- if PyIndex(darkShotEvent, eventsWidth).Some? then Ok(PyIndex(darkShotEvent, eventsWidth).value)
                  else Err(IndexOutOfRange);
    if exists k :: 0 <= k < |eventRows| && |eventRows[k]| <= column then Err(IndexOutOfRange)
    else Ok(Alignment(Positions(kept.index),
                      Some(seq(|eventRows|, k requires 0 <= k < |eventRows| => Flagged(eventRows[k][column])))))
  }

  // ---------------------------------------------------------------------------
  // Properties
  // ---------------------------------------------------------------------------

  lemma {:induction false} CompressNonZero(ids: seq<nat>)
    ensures forall y :: y in Compress(ids, NonZero(ids)) <==> y in ids && y != 0
  {
    if ids != [] {
      CompressNonZero(ids[1..]);
      assert NonZero(ids)[1..] == NonZero(ids[1..]);
      assert ids == [ids[0]] + ids[1..];
    }
  }

  /**
   * Without an events channel the kept pulse ids are the non-zero ids in their
   * original order; with a filter, there is one dark flag per kept id, the
   * filter's own flag for that id. The only failure is a filter whose result
   * has the wrong length.
   */
  lemma AlignWithoutEventsKeepsNonZero(pulseId: seq<nat>, filter: Option<DarkShotFilter>)
    ensures var r := AlignWithoutEvents(pulseId, filter);
            (r.Err? <==> filter.Some? && |filter.value(pulseId)| != |pulseId|) &&
            (r.Ok? ==>
              var kept := Select(pulseId, r.value.index);
              kept == Ok(Compress(pulseId, NonZero(pulseId))) &&
              (forall y :: y in kept.value <==> y in pulseId && y != 0) &&
              (filter.None? <==> r.value.isDark.None?) &&
              (filter.Some? ==>
                 r.value.isDark.value == Compress(filter.value(pulseId), NonZero(pulseId)) &&
                 |r.value.isDark.value| == |kept.value|))
  {
    CompressNonZero(pulseId);
  }

  lemma {:induction false} CompressKeepsOrder(s: seq<nat>, mask: seq<bool>)
    requires |mask| == |s| && StrictlyIncreasing(s)
    ensures StrictlyIncreasing(Compress(s, mask))
    ensures forall y :: y in Compress(s, mask) ==> y in s
  {
    if s != [] {
      CompressKeepsOrder(s[1..], mask[1..]);
      var rest := Compress(s[1..], mask[1..]);
      assert forall y :: y in s[1..] ==> s[0] < y;
      if mask[0] {
        ConsIncreasing(s[0], rest);
      }
    }
  }

  /** Dropping id 0 from an intersection keeps it ascending, paired, and otherwise complete. */
  lemma DropZeroKeepsPairing(a: seq<nat>, b: seq<nat>)
    ensures var d := DropZero(Intersect1d(a, b));
            StrictlyIncreasing(d.values) &&
            (forall y :: y in d.values <==> y != 0 && y in a && y in b) &&
            FirstOccurrences(a, d.values, d.index) && FirstOccurrences(b, d.values, d.otherIndex)
  {
    var common := Intersect1d(a, b);
    var values := common.values;
    var isZero := seq(|values|, k requires 0 <= k < |values| => values[k] == 0);
    var keep := seq(|values|, k requires 0 <= k < |values| => !isZero[k]);
    if AnyTrue(isZero) {
      CompressKeepsOrder(values, keep);
      CompressMembership(values, keep);
      CompressFirstOccurrences(a, values, common.index, keep);
      CompressFirstOccurrences(b, values, common.otherIndex, keep);
    } else {
      forall y | y in values ensures y != 0 {
        var i :| 0 <= i < |values| && values[i] == y;
        assert !isZero[i];
      }
    }
  }

  /**
   * With an events channel the kept pulse ids are exactly the non-zero ids
   * present in both channels, ascending and without duplicates, and every kept
   * shot has one dark flag: the events value, at column `darkShotEvent`, of the
   * first events row carrying its id.
   */
  lemma AlignWithEventsKeepsCommonIds(pulseId: seq<nat>, eventsPulseId: seq<nat>, eventsData: Rows,
                                      eventsWidth: nat, darkShotEvent: int)
    requires AlignWithEvents(pulseId, eventsPulseId, eventsData, eventsWidth, darkShotEvent).Ok?
    ensures var a := AlignWithEvents(pulseId, eventsPulseId, eventsData, eventsWidth, darkShotEvent).value;
            var kept := Select(pulseId, a.index);
            kept.Ok? && StrictlyIncreasing(kept.value) &&
            (forall y :: y in kept.value <==> y != 0 && y in pulseId && y in eventsPulseId) &&
            a.isDark.Some? && |a.isDark.value| == |kept.value| &&
            PyIndex(darkShotEvent, eventsWidth).Some? &&
            (forall k :: 0 <= k < |kept.value| ==>
               var row := FirstIndex(eventsPulseId, kept.value[k]);
               var column := PyIndex(darkShotEvent, eventsWidth).value;
               row < |eventsData| && column < |eventsData[row]| &&
               (a.isDark.value[k] <==> Flagged(eventsData[row][column])))
  {
    var d := DropZero(Intersect1d(pulseId, eventsPulseId));
    DropZeroKeepsPairing(pulseId, eventsPulseId);
    assert Take(pulseId, d.index) == d.values;
    forall k | 0 <= k < |d.values| ensures FirstIndex(eventsPulseId, d.values[k]) == d.otherIndex[k] {
      FirstIndexUnique(eventsPulseId, d.values[k], d.otherIndex[k]);
    }
  }
}
