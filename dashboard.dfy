/**
 * The dashboard's derived values: today's duty, who is on it, whether it
 * is the current user's turn, and the total balance.
 */
module Dashboard {
  import opened Wrappers
  import opened Types
  import opened JsArray
  import opened Clock
  import MoneyManager
  import DutyRoster

  /** The test `d => d.date === today` of the `todaysDuty` lookup. */
  function DatedToday(today: DayKey): Duty -> bool {
    (d: Duty) => d.date == today
  }

  /** `todaysDuty`: the first duty, in list order, dated `today`; none if there is none. */
  function TodaysDuty(duties: seq<Duty>, today: DayKey): (r: Option<Duty>)
    ensures r.None? <==> forall i :: 0 <= i < |duties| ==> duties[i].date != today
    ensures r.Some? ==> r.value.date == today
    ensures r.Some? ==> exists i :: 0 <= i < |duties| && duties[i] == r.value && forall j :: 0 <= j < i ==> duties[j].date != today
  {
    var r := Find(duties, DatedToday(today));
    assert r.Some? ==> DatedToday(today)(duties[FindIndex(duties, DatedToday(today))]);
    r
  }

  /**
   * `assignee`: the first roommate whose id is the roommate id of today's
   * duty. With no duty today, `todaysDuty?.roommateId` is `undefined`,
   * which no roommate id equals.
   */
  function Assignee(roommates: seq<Roommate>, todaysDuty: Option<Duty>): (r: Option<Roommate>)
    ensures r.Some? ==> todaysDuty.Some? && r.value in roommates && r.value.id == todaysDuty.value.roommateId
    ensures r.None? <==> todaysDuty.None? || forall i :: 0 <= i < |roommates| ==> roommates[i].id != todaysDuty.value.roommateId
    ensures r.Some? ==> exists i :: 0 <= i < |roommates| && roommates[i] == r.value && forall j :: 0 <= j < i ==> roommates[j].id != r.value.id
  {
    match todaysDuty
    case None => None
    case Some(d) =>
      var r := Find(roommates, HasId(d.roommateId));
      assert r.Some? ==> HasId(d.roommateId)(r.value);
      assert forall j :: 0 <= j < |roommates| ==> (HasId(d.roommateId)(roommates[j]) <==> roommates[j].id == d.roommateId);
      r
  }

  /** `isMyTurn`: `assignee?.id === currentUser.id`, false when there is no assignee. */
  predicate IsMyTurn(assignee: Option<Roommate>, currentUser: Roommate) {
    assignee.Some? && assignee.value.id == currentUser.id
  }

  /** One step of the `totalBalance` reduce. */
  function TotalBalanceStep(acc: int, curr: Transaction): int {
    if curr.kind == Contribution then acc + curr.amount else acc - curr.amount
  }

  /** `reduce` carried out from the front with an accumulator. */
  function FoldFrom(acc: int, txs: seq<Transaction>): int
    decreases txs
  {
    if txs == [] then acc else FoldFrom(TotalBalanceStep(acc, txs[0]), txs[1..])
  }

  /** `totalBalance`: the same reduce from 0 as the ledger's balance. */
  function TotalBalance(txs: seq<Transaction>): int {
    FoldFrom(0, txs)
  }

  /** It is my turn exactly when there is a duty today, its roommate id names a roommate, and that roommate is me. */
  lemma IsMyTurnIff(roommates: seq<Roommate>, duties: seq<Duty>, today: DayKey, currentUser: Roommate)
    ensures var todays := TodaysDuty(duties, today);
      IsMyTurn(Assignee(roommates, todays), currentUser) <==>
        todays.Some?
        && (exists i :: 0 <= i < |roommates| && roommates[i].id == todays.value.roommateId)
        && todays.value.roommateId == currentUser.id
  {
  }

  /** Only the first duty dated today counts: later ones dated today change neither today's duty nor the assignee. */
  lemma FirstDutyTodayDecides(roommates: seq<Roommate>, before: seq<Duty>, d: Duty, after: seq<Duty>, today: DayKey)
    requires forall i :: 0 <= i < |before| ==> before[i].date != today
    requires d.date == today
    ensures TodaysDuty(before + [d] + after, today) == Some(d)
    ensures Assignee(roommates, TodaysDuty(before + [d] + after, today)) == Assignee(roommates, Some(d))
  {
    var s := before + [d] + after;
    assert s[|before|] == d;
    var r := TodaysDuty(s, today);
    var i :| 0 <= i < |s| && s[i] == r.value && r.value.date == today && forall j :: 0 <= j < i ==> s[j].date != today;
  }

  /** The accumulator adds to what the fold computes from 0. */
  lemma {:induction false} FoldFromOffset(acc: int, txs: seq<Transaction>)
    ensures FoldFrom(acc, txs) == acc + MoneyManager.Balance(txs)
    decreases txs
  {
    if txs != [] {
      FoldFromOffset(TotalBalanceStep(acc, txs[0]), txs[1..]);
      MoneyManager.BalancePrepend(txs[0], txs[1..]);
      assert txs == [txs[0]] + txs[1..];
    }
  }

  /** The dashboard's total balance is the ledger's balance. */
  lemma TotalBalanceIsLedgerBalance(txs: seq<Transaction>)
    ensures TotalBalance(txs) == MoneyManager.Balance(txs)
  {
    FoldFromOffset(0, txs);
  }

  /**
   * The roster's overdue flag, as written, can disagree with the
   * dashboard: on a device eight hours ahead of UTC, at 02:00 local time,
   * the dashboard names a duty as today's while the roster marks it
   * overdue.
   */
  lemma TodaysDutyShownOverdueAsWritten()
    ensures var offset := 8 * 3_600_000;
      var now := 20_000 * MsPerDay + 18 * 3_600_000;
      var d := DutyRoster.NewDuty("1", UtcDay(now), "u1", "倒垃圾");
      && TodaysDuty([d], UtcDay(now)) == Some(d)
      && DutyRoster.IsOverdueAsWritten(d, now, offset)
  {
    var offset := 8 * 3_600_000;
    var now := 20_000 * MsPerDay + 18 * 3_600_000;
    assert UtcDay(now) == 20_000;
    assert LocalDay(now, offset) == 20_001;
  }

  /** With one notion of today, the duty the dashboard names as today's is never shown overdue. */
  lemma TodaysDutyIsNeverOverdue(duties: seq<Duty>, today: DayKey)
    requires TodaysDuty(duties, today).Some?
    ensures !DutyRoster.IsOverdue(TodaysDuty(duties, today).value, today)
  {
  }

  /**
   * Four roommates, an empty roster, and one duty for A today: the
   * dashboard picks exactly that duty, and it is A's turn and nobody
   * else's.
   */
  lemma AddThenLookUpScenario(today: DayKey, user: Roommate)
    requires user in [Roommate("a", "A", ""), Roommate("b", "B", ""), Roommate("c", "C", ""), Roommate("d", "D", "")]
    ensures var roommates := [Roommate("a", "A", ""), Roommate("b", "B", ""), Roommate("c", "C", ""), Roommate("d", "D", "")];
      var duties := DutyRoster.SortByDate([] + [DutyRoster.NewDuty("1", today, "a", "trash")]);
      && TodaysDuty(duties, today) == Some(DutyRoster.NewDuty("1", today, "a", "trash"))
      && (IsMyTurn(Assignee(roommates, TodaysDuty(duties, today)), user) <==> user.id == "a")
  {
    var d := DutyRoster.NewDuty("1", today, "a", "trash");
    assert [] + [d] == [d];
    assert DutyRoster.SortByDate([d]) == [d] by {
      DutyRoster.SortByDateOfSorted([d]);
    }
  }
}
