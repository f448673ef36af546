/**
 * The duty roster: adding a duty (append, then sort by date), toggling
 * and deleting by id, the date-sorted display list, and the "overdue"
 * flag drawn next to a duty.
 *
 * `Array.prototype.sort` is stable, so with the comparator
 * `a.date - b.date` its result is the unique stable ordering by date;
 * SortByDate below is that ordering, and SortInPlace is an in-place
 * insertion sort proved to produce it.
 */
module DutyRoster {
  import opened Types
  import opened JsArray
  import opened Clock

  /** The duty `handleAddDuty` builds: not yet completed. */
  function NewDuty(id: Id, date: DayKey, roommateId: Id, task: string): Duty {
    Duty(id, date, roommateId, task, false)
  }

  predicate IsSortedByDate(s: seq<Duty>) {
    forall i, j :: 0 <= i < j < |s| ==> s[i].date <= s[j].date
  }

  /** Places `x` after every duty dated no later than it, scanning from the end. */
  function InsertByDate(s: seq<Duty>, x: Duty): (r: seq<Duty>)
    ensures |r| == |s| + 1
  {
    if s == [] || s[|s| - 1].date <= x.date then s + [x]
    else InsertByDate(s[..|s| - 1], x) + [s[|s| - 1]]
  }

  /** The stable sort by date: each duty is inserted after the earlier ones with the same date. */
  function SortByDate(s: seq<Duty>): (r: seq<Duty>)
    ensures |r| == |s|
  {
    if s == [] then []
    else InsertByDate(SortByDate(s[..|s| - 1]), s[|s| - 1])
  }

  /** Inserting adds exactly `x`: the result is a permutation of `s` with `x` added. */
  lemma {:induction false} InsertByDatePermutes(s: seq<Duty>, x: Duty)
    ensures multiset(InsertByDate(s, x)) == multiset(s) + multiset{x}
  {
    if s != [] && s[|s| - 1].date > x.date {
      var init, last := s[..|s| - 1], s[|s| - 1];
      assert s == init + [last];
      InsertByDatePermutes(init, x);
    }
  }

  /** Inserting into a date-sorted list keeps it sorted. */
  lemma {:induction false} InsertByDateSorts(s: seq<Duty>, x: Duty)
    requires IsSortedByDate(s)
    ensures IsSortedByDate(InsertByDate(s, x))
  {
    if s != [] && s[|s| - 1].date > x.date {
      var init, last := s[..|s| - 1], s[|s| - 1];
      assert s == init + [last];
      InsertByDateSorts(init, x);
      InsertByDatePermutes(init, x);
      var r := InsertByDate(s, x);
      assert r == InsertByDate(init, x) + [last];
      forall i | 0 <= i < |r| - 1 ensures r[i].date <= last.date {
        assert r[i] in multiset(InsertByDate(init, x));
      }
    }
  }

  /** The sort's result is in date order and holds exactly the duties it was given. */
  lemma {:induction false} SortByDateSortsAndPermutes(s: seq<Duty>)
    ensures IsSortedByDate(SortByDate(s))
    ensures multiset(SortByDate(s)) == multiset(s)
  {
    if s != [] {
      var init, last := s[..|s| - 1], s[|s| - 1];
      assert s == init + [last];
      SortByDateSortsAndPermutes(init);
      InsertByDatePermutes(SortByDate(init), last);
      InsertByDateSorts(SortByDate(init), last);
    }
  }

  /** Where `InsertByDate` puts `x`: after the first `j` duties, when those are no later and the rest are later. */
  lemma {:induction false} InsertByDateAt(s: seq<Duty>, x: Duty, j: nat)
    requires j <= |s|
    requires j == 0 || s[j - 1].date <= x.date
    requires forall k :: j <= k < |s| ==> s[k].date > x.date
    ensures InsertByDate(s, x) == s[..j] + [x] + s[j..]
  {
    if j == |s| {
      assert s[..j] == s && s[j..] == [];
    } else {
      var init, last := s[..|s| - 1], s[|s| - 1];
      assert s == init + [last];
      InsertByDateAt(init, x, j);
      assert init[..j] == s[..j];
      assert s[j..] == init[j..] + [last];
    }
  }

  /** `sort` on the fresh copy: an in-place insertion sort, stable by date. */
  method SortInPlace(a: array<Duty>)
    modifies a
    ensures a[..] == SortByDate(old(a[..]))
  {
    ghost var input := a[..];
    var i := 0;
    while i < a.Length
      invariant 0 <= i <= a.Length
      invariant a[..i] == SortByDate(input[..i])
      invariant a[i..] == input[i..]
    {
      InsertInPlace(a, i);
      SortByDatePrefix(input, i);
      assert a[i + 1..] == input[i + 1..];
      i := i + 1;
    }
    assert input[..a.Length] == input;
  }

  /** Sorting one more element of the input is inserting it into the sorted shorter prefix. */
  lemma SortByDatePrefix(input: seq<Duty>, i: nat)
    requires i < |input|
    ensures SortByDate(input[..i + 1]) == InsertByDate(SortByDate(input[..i]), input[i])
  {
    assert input[..i + 1][..i] == input[..i];
  }

  /** One step of SortInPlace: moves `a[i]` down into the prefix `a[..i]`, shifting later-dated duties up. */
  method InsertInPlace(a: array<Duty>, i: nat)
    requires i < a.Length
    modifies a
    ensures a[..i + 1] == InsertByDate(old(a[..i]), old(a[i]))
    ensures a[i + 1..] == old(a[i + 1..])
  {
    var x := a[i];
    ghost var sorted := a[..i];
    var j := i;
    while j > 0 && a[j - 1].date > x.date
      invariant 0 <= j <= i
      invariant forall k :: 0 <= k < j ==> a[k] == sorted[k]
      invariant forall k :: j < k <= i ==> a[k] == sorted[k - 1]
      invariant forall k :: j <= k < i ==> sorted[k].date > x.date
      invariant a[i + 1..] == old(a[i + 1..])
    {
      a[j] := a[j - 1];
      j := j - 1;
    }
    a[j] := x;
    InsertByDateAt(sorted, x, j);
    ShiftedIsSplice(a[..i + 1], sorted, x, j);
  }

  /** A sequence that agrees with `sorted` below `j`, holds `x` at `j` and `sorted` shifted up by one above it is the splice. */
  lemma ShiftedIsSplice(s: seq<Duty>, sorted: seq<Duty>, x: Duty, j: nat)
    requires |s| == |sorted| + 1 && j <= |sorted|
    requires forall k :: 0 <= k < j ==> s[k] == sorted[k]
    requires s[j] == x
    requires forall k :: j < k < |s| ==> s[k] == sorted[k - 1]
    ensures s == sorted[..j] + [x] + sorted[j..]
  {
  }

  /** `handleAddDuty`: the list with the new duty appended, sorted by date. */
  method AddDuty(duties: seq<Duty>, id: Id, date: DayKey, roommateId: Id, task: string) returns (r: seq<Duty>)
    ensures r == SortByDate(duties + [NewDuty(id, date, roommateId, task)])
    ensures |r| == |duties| + 1
    ensures IsSortedByDate(r)
    ensures multiset(r) == multiset(duties) + multiset{NewDuty(id, date, roommateId, task)}
  {
    var s := duties + [NewDuty(id, date, roommateId, task)];
    var a := new Duty[|s|](k requires 0 <= k < |s| => s[k]);
    assert a[..] == s;
    SortInPlace(a);
    r := a[..];
    SortByDateSortsAndPermutes(s);
  }

  /** `sortedDuties`: a sorted copy for display; the stored list is only read. */
  method SortedDuties(duties: seq<Duty>) returns (r: seq<Duty>)
    ensures r == SortByDate(duties)
    ensures IsSortedByDate(r) && multiset(r) == multiset(duties)
  {
    var a := new Duty[|duties|](k requires 0 <= k < |duties| => duties[k]);
    assert a[..] == duties;
    SortInPlace(a);
    r := a[..];
    SortByDateSortsAndPermutes(duties);
  }

  function DatedOn(d: DayKey): Duty -> bool {
    (x: Duty) => x.date == d
  }

  /** `InsertByDate` keeps the relative order of the duties of any one date. */
  lemma {:induction false} InsertByDateStable(s: seq<Duty>, x: Duty, d: DayKey)
    requires IsSortedByDate(s)
    ensures Filter(InsertByDate(s, x), DatedOn(d)) == Filter(s, DatedOn(d)) + (if x.date == d then [x] else [])
  {
    if s == [] || s[|s| - 1].date <= x.date {
      FilterAppend(s, x, DatedOn(d));
    } else {
      var init, last := s[..|s| - 1], s[|s| - 1];
      assert s == init + [last];
      assert InsertByDate(s, x) == InsertByDate(init, x) + [last];
      InsertByDateStable(init, x, d);
      FilterAppend(InsertByDate(init, x), last, DatedOn(d));
      FilterAppend(init, last, DatedOn(d));
    }
  }

  /** The sort is stable: the duties of any one date keep their order. */
  lemma {:induction false} SortByDateIsStable(s: seq<Duty>, d: DayKey)
    ensures Filter(SortByDate(s), DatedOn(d)) == Filter(s, DatedOn(d))
  {
    if s != [] {
      var init, last := s[..|s| - 1], s[|s| - 1];
      assert s == init + [last];
      SortByDateIsStable(init, d);
      SortByDateSortsAndPermutes(init);
      InsertByDateStable(SortByDate(init), last, d);
      FilterAppend(init, last, DatedOn(d));
    }
  }

  /** A list already in date order is left as it is. */
  lemma {:induction false} SortByDateOfSorted(s: seq<Duty>)
    requires IsSortedByDate(s)
    ensures SortByDate(s) == s
  {
    if s != [] {
      var init := s[..|s| - 1];
      SortByDateOfSorted(init);
      assert s == init + [s[|s| - 1]];
    }
  }

  /** The test `d => d.id !== id` of `deleteDuty`. */
  function DutyIdIsNot(id: Id): Duty -> bool {
    (d: Duty) => d.id != id
  }

  /** `toggleComplete`: flips the completion of the duties with the given id and of no other. */
  function ToggleComplete(duties: seq<Duty>, id: Id): (r: seq<Duty>)
    ensures |r| == |duties|
    ensures forall i :: 0 <= i < |r| ==> r[i] == duties[i].(isCompleted := r[i].isCompleted)
    ensures forall i :: 0 <= i < |r| ==> (r[i].isCompleted != duties[i].isCompleted <==> duties[i].id == id)
  {
    if duties == [] then []
    else
      var d := duties[0];
      [if d.id == id then d.(isCompleted := !d.isCompleted) else d] + ToggleComplete(duties[1..], id)
  }

  /** Toggling twice restores the list. */
  lemma ToggleTwiceRestores(duties: seq<Duty>, id: Id)
    ensures ToggleComplete(ToggleComplete(duties, id), id) == duties
  {
  }

  /** Toggling an id no duty has changes nothing. */
  lemma ToggleAbsentIsNoOp(duties: seq<Duty>, id: Id)
    requires forall i :: 0 <= i < |duties| ==> duties[i].id != id
    ensures ToggleComplete(duties, id) == duties
  {
  }

  /** `deleteDuty`: every duty with the given id goes. */
  function DeleteDuty(duties: seq<Duty>, id: Id): (r: seq<Duty>)
    ensures forall d :: d in r <==> d in duties && d.id != id
  {
    Filter(duties, DutyIdIsNot(id))
  }

  /** Deleting keeps the order of the remaining duties and every copy of each of them. */
  lemma DeleteDutyKeepsOthersInOrder(duties: seq<Duty>, id: Id)
    ensures IsSubsequence(DeleteDuty(duties, id), duties)
    ensures forall d: Duty :: d.id != id ==> multiset(DeleteDuty(duties, id))[d] == multiset(duties)[d]
  {
    FilterIsSubsequence(duties, DutyIdIsNot(id));
    forall d: Duty | d.id != id ensures multiset(DeleteDuty(duties, id))[d] == multiset(duties)[d] {
      FilterMultiplicity(duties, DutyIdIsNot(id), d);
    }
  }

  // ---- The overdue flag ----

  /**
   * `isPast && !duty.isCompleted` as written: the duty's date, read as
   * midnight UTC, before the last local midnight of a device `offset` ms
   * ahead of UTC.
   */
  predicate IsOverdueAsWritten(d: Duty, now: Instant, offset: int) {
    DayStart(d.date) < LocalMidnight(now, offset) && !d.isCompleted
  }

  /** Overdue: not completed and dated before `today`, the date the rest of the app calls today. */
  predicate IsOverdue(d: Duty, today: DayKey) {
    d.date < today && !d.isCompleted
  }

  /** On a device at or east of UTC, the flag as written marks the duties dated before the local date. */
  lemma OverdueAsWrittenEastOfUtc(d: Duty, now: Instant, offset: int)
    requires 0 <= offset < MsPerDay
    ensures IsOverdueAsWritten(d, now, offset) <==> IsOverdue(d, LocalDay(now, offset))
  {
    var day := LocalDay(now, offset);
    if d.date < day {
      assert DayStart(d.date) <= DayStart(day - 1);
    } else {
      assert DayStart(day) <= DayStart(d.date);
    }
  }

  /**
   * West of UTC the flag as written marks a duty dated the local date
   * itself, which is not before the start of that day: midnight UTC of a
   * date comes before local midnight of the same date.
   */
  lemma OverdueAsWrittenWestOfUtc(d: Duty, now: Instant, offset: int)
    requires -MsPerDay < offset < 0
    requires d.date == LocalDay(now, offset) && !d.isCompleted
    ensures IsOverdueAsWritten(d, now, offset)
    ensures !IsOverdue(d, LocalDay(now, offset))
  {
    assert LocalMidnight(now, offset) == DayStart(d.date) - offset;
  }

  /** On a device on UTC, the flag as written marks the duties dated before the UTC date. */
  lemma OverdueAsWrittenOnUtc(d: Duty, now: Instant)
    ensures IsOverdueAsWritten(d, now, 0) <==> IsOverdue(d, UtcDay(now))
  {
    OverdueAsWrittenEastOfUtc(d, now, 0);
  }
}
