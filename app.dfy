/**
 * The application shell: the session state (view, current user, duties,
 * transactions), loading the saved lists on mount, the demo user
 * switcher, and the mapping from a view name to the screen it shows.
 *
 * The shell keeps no notes state, and no view name leads to the notes
 * board.
 */
module App {
  import opened Wrappers
  import opened Types
  import opened JsArray
  import opened Constants

  // ---- Loading the saved lists ----

  /**
   * The state initialisers of `duties` and `transactions`: a missing or
   * empty saved text means an empty list; otherwise the text is parsed.
   * `parse` stands for `JSON.parse`, None meaning that it throws; the
   * throw is not caught, so it is an error carrying the offending text.
   */
  function Load<T>(saved: Option<string>, parse: string -> Option<seq<T>>): (r: Result<seq<T>, string>)
    ensures saved.None? || saved == Some("") ==> r == Ok([])
    ensures saved.Some? && saved.value != "" ==>
      && (r.Ok? <==> parse(saved.value).Some?)
      && (r.Ok? ==> r.value == parse(saved.value).value)
      && (r.Err? ==> r.error == saved.value)
  {
    match saved
    case None => Ok([])
    case Some(text) =>
      if text == "" then Ok([])
      else
        match parse(text)
        case None => Err(text)
        case Some(xs) => Ok(xs)
  }

  /**
   * What the persistence effect saved comes back on the next mount,
   * provided the serialiser writes non-empty text that the parser reads
   * back, as `JSON.stringify` of an array does.
   */
  lemma SavedListReloads<T>(xs: seq<T>, stringify: seq<T> -> string, parse: string -> Option<seq<T>>)
    requires stringify(xs) != ""
    requires parse(stringify(xs)) == Some(xs)
    ensures Load(Some(stringify(xs)), parse) == Ok(xs)
  {
  }

  /** A saved text that does not parse stops the mount, whatever the other list holds. */
  lemma UnparsableSaveFailsLoad<T>(text: string, parse: string -> Option<seq<T>>)
    requires text != "" && parse(text).None?
    ensures Load(Some(text), parse).Err?
  {
  }

  // ---- The user switcher ----

  /** The test `r => r.id === currentUser.id` of `switchUser`. */
  function SameIdAs(user: Roommate): Roommate -> bool {
    (r: Roommate) => r.id == user.id
  }

  /**
   * `switchUser`: the roommate after the first one with the current
   * user's id, wrapping round at the end; the first roommate when no
   * roommate has that id (`findIndex` gives -1).
   */
  function SwitchUserTarget(roommates: seq<Roommate>, current: Roommate): (r: Roommate)
    requires |roommates| > 0
    ensures (forall i :: 0 <= i < |roommates| ==> roommates[i].id != current.id) ==> r == roommates[0]
    ensures forall i :: FirstWithId(roommates, current.id, i) ==> r == if i + 1 < |roommates| then roommates[i + 1] else roommates[0]
  {
    var k := FindIndex(roommates, SameIdAs(current));
    assert forall i :: 0 <= i < |roommates| ==> (SameIdAs(current)(roommates[i]) <==> roommates[i].id == current.id);
    if k + 1 < |roommates| then roommates[k + 1] else roommates[0]
  }

  /** `(k + 1) % n` for an index `k` found by `findIndex` (so `-1 <= k < n`) steps forward and wraps from the last to 0. */
  lemma NextIndexWraps(k: int, n: int)
    requires n > 0 && -1 <= k < n
    ensures (k + 1) % n == if k + 1 < n then k + 1 else 0
  {
  }

  /** `switchUser` always picks one of the roommates. */
  lemma SwitchUserStaysInList(roommates: seq<Roommate>, current: Roommate)
    requires |roommates| > 0
    ensures SwitchUserTarget(roommates, current) in roommates
  {
    var k := FindIndex(roommates, SameIdAs(current));
    if k + 1 < |roommates| {
      assert roommates[k + 1] in roommates;
    }
  }

  /** `f` applied `k` times. */
  function Iterate<T>(f: T -> T, x: T, k: nat): T
    decreases k
  {
    if k == 0 then x else Iterate(f, f(x), k - 1)
  }

  /** Applying `f` `a` times and then `b` times is applying it `a + b` times. */
  lemma {:induction false} IterateAdd<T>(f: T -> T, x: T, a: nat, b: nat)
    ensures Iterate(f, x, a + b) == Iterate(f, Iterate(f, x, a), b)
    decreases a
  {
    if a > 0 {
      IterateAdd(f, f(x), a - 1, b);
    }
  }

  /** When `f` steps along `s`, `k` steps from `s[i]` reach `s[i + k]`. */
  lemma {:induction false} IterateAlong<T>(f: T -> T, s: seq<T>, i: nat, k: nat)
    requires forall j :: 0 <= j < |s| - 1 ==> f(s[j]) == s[j + 1]
    requires i + k < |s|
    ensures Iterate(f, s[i], k) == s[i + k]
    decreases k
  {
    if k > 0 {
      IterateAlong(f, s, i + 1, k - 1);
    }
  }

  /** When `f` steps along `s` and from its last element back to its first, `|s|` steps come back. */
  lemma IterateAround<T>(f: T -> T, s: seq<T>, i: nat)
    requires forall j :: 0 <= j < |s| - 1 ==> f(s[j]) == s[j + 1]
    requires 0 < |s| && f(s[|s| - 1]) == s[0]
    requires i < |s|
    ensures Iterate(f, s[i], |s|) == s[i]
  {
    var n := |s|;
    IterateAlong(f, s, i, n - 1 - i);
    IterateAdd(f, s[i], n - 1 - i, 1);
    assert Iterate(f, s[i], n - i) == s[0];
    IterateAlong(f, s, 0, i);
    IterateAdd(f, s[i], n - i, i);
  }

  /** One press of the switch button. */
  function SwitchStep(roommates: seq<Roommate>): Roommate -> Roommate
    requires |roommates| > 0
  {
    (u: Roommate) => SwitchUserTarget(roommates, u)
  }

  /** The user after `k` presses of the switch button. */
  function SwitchTimes(roommates: seq<Roommate>, current: Roommate, k: nat): Roommate
    requires |roommates| > 0
  {
    Iterate(SwitchStep(roommates), current, k)
  }

  predicate DistinctIds(roommates: seq<Roommate>) {
    forall i, j :: 0 <= i < j < |roommates| ==> roommates[i].id != roommates[j].id
  }

  /** With distinct ids, one press moves from the roommate at `i` to the next one, and from the last to the first. */
  lemma SwitchFromIndex(roommates: seq<Roommate>, i: nat)
    requires DistinctIds(roommates) && i < |roommates|
    ensures SwitchUserTarget(roommates, roommates[i]) == if i + 1 < |roommates| then roommates[i + 1] else roommates[0]
  {
    var k := FindIndex(roommates, SameIdAs(roommates[i]));
    assert SameIdAs(roommates[i])(roommates[i]);
    assert k == i;
  }

  /** With distinct ids, pressing the switch once per roommate comes back to the starting user. */
  lemma SwitchCycleReturns(roommates: seq<Roommate>, i: nat)
    requires DistinctIds(roommates) && i < |roommates|
    ensures SwitchTimes(roommates, roommates[i], |roommates|) == roommates[i]
  {
    var f := SwitchStep(roommates);
    forall j | 0 <= j < |roommates| ensures f(roommates[j]) == if j + 1 < |roommates| then roommates[j + 1] else roommates[0] {
      SwitchFromIndex(roommates, j);
    }
    IterateAround(f, roommates, i);
  }

  /** Two roommates sharing an id break the cycle: from the second copy, three presses do not come back. */
  lemma SharedIdBreaksCycle()
    ensures var a := Roommate("u1", "A", "");
      var b := Roommate("u2", "B", "");
      var a' := Roommate("u1", "A'", "");
      SwitchTimes([a, b, a'], a', 3) != a'
  {
    var a, b, a' := Roommate("u1", "A", ""), Roommate("u2", "B", ""), Roommate("u1", "A'", "");
    var rs := [a, b, a'];
    assert SwitchUserTarget(rs, a') == b by {
      assert SameIdAs(a')(rs[0]);
    }
    assert SwitchUserTarget(rs, b) == a' by {
      assert SameIdAs(b)(rs[1]) && !SameIdAs(b)(rs[0]);
    }
  }

  /** The seed roommates have distinct ids, so the switcher visits each of them in turn and four presses come back. */
  lemma MockRoommatesCycle(u: Roommate)
    requires u in MockRoommates
    ensures SwitchTimes(MockRoommates, u, 4) == u
  {
    assert DistinctIds(MockRoommates);
    var i :| 0 <= i < |MockRoommates| && MockRoommates[i] == u;
    SwitchCycleReturns(MockRoommates, i);
  }

  // ---- The view mapping ----

  /** The screens `renderView` can return, with the props each one is given. */
  datatype Screen =
    | DashboardScreen(roommates: seq<Roommate>, duties: seq<Duty>, transactions: seq<Transaction>, currentUser: Roommate)
    | DutyRosterScreen(roommates: seq<Roommate>, duties: seq<Duty>)
    | MoneyManagerScreen(roommates: seq<Roommate>, transactions: seq<Transaction>)
    | GamesScreen(roommates: seq<Roommate>)
    | AIChatScreen

  /** The view names `renderView` has a case for, other than the dashboard's own. */
  const RoutedViews: set<string> := {"duty", "money", "games", "assistant"}

  /** `renderView`: one case per routed name; every other name, `'notes'` among them, shows the dashboard. */
  function RenderView(view: string, duties: seq<Duty>, transactions: seq<Transaction>, currentUser: Roommate): (s: Screen)
    ensures s.DashboardScreen? <==> view !in RoutedViews
    ensures s.DutyRosterScreen? <==> view == "duty"
    ensures s.MoneyManagerScreen? <==> view == "money"
    ensures s.GamesScreen? <==> view == "games"
    ensures s.AIChatScreen? <==> view == "assistant"
    ensures !s.AIChatScreen? ==> s.roommates == MockRoommates
    ensures s.DutyRosterScreen? ==> s.duties == duties
    ensures s.MoneyManagerScreen? ==> s.transactions == transactions
    ensures s.DashboardScreen? ==> s.duties == duties && s.transactions == transactions && s.currentUser == currentUser
  {
    match view
    case "duty" => DutyRosterScreen(MockRoommates, duties)
    case "money" => MoneyManagerScreen(MockRoommates, transactions)
    case "games" => GamesScreen(MockRoommates)
    case "assistant" => AIChatScreen
    case _ => DashboardScreen(MockRoommates, duties, transactions, currentUser)
  }

  /** Of the declared view names, exactly `'dashboard'` and `'notes'` show the dashboard. */
  lemma DeclaredViewsRouting(v: ViewState, duties: seq<Duty>, transactions: seq<Transaction>, currentUser: Roommate)
    ensures RenderView(v, duties, transactions, currentUser).DashboardScreen? <==> v == "dashboard" || v == "notes"
    ensures !RenderView(v, duties, transactions, currentUser).AIChatScreen?
  {
  }

  /** A name without a case shows exactly what `'dashboard'` shows. */
  lemma UnroutedViewShowsDashboard(v: string, duties: seq<Duty>, transactions: seq<Transaction>, currentUser: Roommate)
    requires v !in RoutedViews
    ensures RenderView(v, duties, transactions, currentUser) == RenderView("dashboard", duties, transactions, currentUser)
  {
  }

  /** Distinct routed names show distinct screens. */
  lemma RoutedViewsDistinct(v: string, w: string, duties: seq<Duty>, transactions: seq<Transaction>, currentUser: Roommate)
    requires v in RoutedViews && w in RoutedViews && v != w
    ensures RenderView(v, duties, transactions, currentUser) != RenderView(w, duties, transactions, currentUser)
  {
  }

  // ---- The session ----

  /** The state `App` holds: the view, the current user and the two persisted lists. */
  class Session {
    var view: string
    var currentUser: Roommate
    var duties: seq<Duty>
    var transactions: seq<Transaction>

    /** The current user is always one of the seed roommates. */
    predicate Valid()
      reads this
    {
      currentUser in MockRoommates
    }

    /** The initial state: the dashboard, the first roommate, and the loaded lists. */
    constructor(duties: seq<Duty>, transactions: seq<Transaction>)
      ensures Valid()
      ensures view == "dashboard" && currentUser == MockRoommates[0]
      ensures this.duties == duties && this.transactions == transactions
    {
      view := "dashboard";
      currentUser := MockRoommates[0];
      this.duties := duties;
      this.transactions := transactions;
    }

    /** What `renderView` shows for the current state. */
    function CurrentScreen(): (s: Screen)
      reads this
      ensures s.DashboardScreen? <==> view !in RoutedViews
      ensures s.DutyRosterScreen? <==> view == "duty"
      ensures s.MoneyManagerScreen? <==> view == "money"
      ensures s.GamesScreen? <==> view == "games"
      ensures s.AIChatScreen? <==> view == "assistant"
      ensures !s.AIChatScreen? ==> s.roommates == MockRoommates
      ensures s.DashboardScreen? ==> s.currentUser == currentUser && s.duties == duties && s.transactions == transactions
      ensures s.DutyRosterScreen? ==> s.duties == duties
      ensures s.MoneyManagerScreen? ==> s.transactions == transactions
    {
      RenderView(view, duties, transactions, currentUser)
    }

    /** `switchUser`: the current user moves on to the next seed roommate; nothing else changes. */
    method SwitchUser()
      requires Valid()
      modifies this
      ensures Valid()
      ensures currentUser == SwitchUserTarget(MockRoommates, old(currentUser))
      ensures view == old(view) && duties == old(duties) && transactions == old(transactions)
    {
      var k := FindIndex(MockRoommates, SameIdAs(currentUser));
      var next := (k + 1) % |MockRoommates|;
      NextIndexWraps(k, |MockRoommates|);
      currentUser := MockRoommates[next];
      SwitchUserStaysInList(MockRoommates, old(currentUser));
    }

    /** `setView`, as the navigation bar and the dashboard call it. */
    method SetView(v: string)
      requires Valid()
      modifies this
      ensures Valid()
      ensures view == v
      ensures currentUser == old(currentUser) && duties == old(duties) && transactions == old(transactions)
    {
      view := v;
    }

    /** `setDuties`, as the roster calls it with the list it computed. */
    method SetDuties(ds: seq<Duty>)
      requires Valid()
      modifies this
      ensures Valid()
      ensures duties == ds
      ensures view == old(view) && currentUser == old(currentUser) && transactions == old(transactions)
    {
      duties := ds;
    }

    /** `setTransactions`, as the ledger calls it with the list it computed. */
    method SetTransactions(ts: seq<Transaction>)
      requires Valid()
      modifies this
      ensures Valid()
      ensures transactions == ts
      ensures view == old(view) && currentUser == old(currentUser) && duties == old(duties)
    {
      transactions := ts;
    }
  }

  /**
   * Mounting `App`: both lists are loaded, duties first; a saved text that
   * does not parse is an error and no session starts.
   */
  method Mount(
    savedDuties: Option<string>, savedTransactions: Option<string>,
    parseDuties: string -> Option<seq<Duty>>, parseTransactions: string -> Option<seq<Transaction>>)
    returns (r: Result<Session, string>)
    ensures r.Ok? <==> Load(savedDuties, parseDuties).Ok? && Load(savedTransactions, parseTransactions).Ok?
    ensures r.Err? && Load(savedDuties, parseDuties).Err? ==> r.error == Load(savedDuties, parseDuties).error
    ensures r.Err? && Load(savedDuties, parseDuties).Ok? ==> r.error == Load(savedTransactions, parseTransactions).error
    ensures r.Ok? ==>
      && fresh(r.value) && r.value.Valid()
      && r.value.view == "dashboard" && r.value.currentUser == MockRoommates[0]
      && r.value.duties == Load(savedDuties, parseDuties).value
      && r.value.transactions == Load(savedTransactions, parseTransactions).value
  {
    var ds := Load(savedDuties, parseDuties);
    if ds.Err? {
      return Err(ds.error);
    }
    var ts := Load(savedTransactions, parseTransactions);
    if ts.Err? {
      return Err(ts.error);
    }
    var s := new Session(ds.value, ts.value);
    return Ok(s);
  }

  /** With nothing saved, the app starts on the dashboard as the first roommate, with no duties and no transactions. */
  method MountWithNothingSaved() returns (s: Session)
    ensures fresh(s) && s.Valid()
    ensures s.view == "dashboard" && s.currentUser == MockRoommates[0]
    ensures s.duties == [] && s.transactions == []
  {
    var r := Mount(None, None, (t: string) => None, (t: string) => None);
    s := r.value;
  }
}
