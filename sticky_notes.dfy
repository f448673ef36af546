/**
 * The notes board: posting a note (always anonymous, for everyone or
 * for one roommate), deleting one, and which notes a roommate sees.
 * The board replaces its whole list on every change, so each operation
 * is a function from the old list to the new one.
 */
module StickyNotes {
  import opened Wrappers
  import opened Types
  import opened JsArray

  /** The characters `String.prototype.trim` removes: ECMAScript WhiteSpace and LineTerminator. */
  predicate IsJsWhitespace(c: char) {
    c == '\t' || c == '\n' || c == '\U{000B}' || c == '\U{000C}' || c == '\r' || c == ' '
    || c == '\U{00A0}' || c == '\U{1680}' || ('\U{2000}' <= c <= '\U{200A}')
    || c == '\U{2028}' || c == '\U{2029}' || c == '\U{202F}' || c == '\U{205F}'
    || c == '\U{3000}' || c == '\U{FEFF}'
  }

  /** Empty, or made of whitespace only. */
  predicate IsBlank(s: string) {
    forall i :: 0 <= i < |s| ==> IsJsWhitespace(s[i])
  }

  /** Drops the leading whitespace. */
  function TrimStart(s: string): (r: string)
    ensures |r| <= |s| && r == s[|s| - |r|..]
    ensures forall i :: 0 <= i < |s| - |r| ==> IsJsWhitespace(s[i])
    ensures r != [] ==> !IsJsWhitespace(r[0])
  {
    if s != [] && IsJsWhitespace(s[0]) then TrimStart(s[1..]) else s
  }

  /** Drops the trailing whitespace. */
  function TrimEnd(s: string): (r: string)
    ensures |r| <= |s| && r == s[..|r|]
    ensures forall i :: |r| <= i < |s| ==> IsJsWhitespace(s[i])
    ensures r != [] ==> !IsJsWhitespace(r[|r| - 1])
  {
    if s != [] && IsJsWhitespace(s[|s| - 1]) then TrimEnd(s[..|s| - 1]) else s
  }

  /** `String.prototype.trim`: a slice of `s` with no whitespace at either end, empty exactly for a blank `s`. */
  function Trim(s: string): (r: string)
    ensures r == "" <==> IsBlank(s)
    ensures |r| <= |s|
    ensures r != "" ==> !IsJsWhitespace(r[0]) && !IsJsWhitespace(r[|r| - 1])
    ensures exists i :: SliceAt(s, i, r) && (forall k :: 0 <= k < i ==> IsJsWhitespace(s[k])) && (forall k :: i + |r| <= k < |s| ==> IsJsWhitespace(s[k]))
  {
    var start := TrimStart(s);
    var r := TrimEnd(start);
    assert r == "" ==> start == "";
    var i := |s| - |start|;
    assert SliceAt(s, i, r);
    r
  }

  /** `r` is the slice of `s` starting at index `i`. */
  predicate SliceAt(s: string, i: int, r: string) {
    0 <= i <= |s| - |r| && r == s[i..i + |r|]
  }

  /**
   * The note `handleAddNote` builds: stamped with the current user as
   * author, always anonymous, and with the empty recipient selection
   * ("everyone") turned into no recipient.
   */
  function NewNote(id: Id, author: Id, selectedRecipient: Id, content: string, color: string, now: Instant): StickyNote
  {
    StickyNote(id, author, if selectedRecipient == "" then None else Some(selectedRecipient), content, true, color, now)
  }

  /** `handleAddNote`: a blank note is refused; any other is put in front of the list. */
  function AddNote(
    notes: seq<StickyNote>, content: string, color: string, selectedRecipient: Id,
    currentUser: Id, id: Id, now: Instant): (r: seq<StickyNote>)
    ensures IsBlank(content) ==> r == notes
    ensures !IsBlank(content) ==>
      && |r| == |notes| + 1
      && r[1..] == notes
      && r[0].id == id && r[0].content == content && r[0].color == color && r[0].date == now
      && r[0].authorId == currentUser
      && r[0].isAnonymous
      && (r[0].recipientId == None <==> selectedRecipient == "")
      && (selectedRecipient != "" ==> r[0].recipientId == Some(selectedRecipient))
  {
    if Trim(content) == "" then notes
    else [NewNote(id, currentUser, selectedRecipient, content, color, now)] + notes
  }

  /** `deleteNote`: every note with the given id goes; the others stay, in order. */
  function DeleteNote(notes: seq<StickyNote>, id: Id): (r: seq<StickyNote>)
    ensures forall n :: n in r <==> n in notes && n.id != id
  {
    Filter(notes, IdIsNot(id))
  }

  /** The test `n => n.id !== id` of `deleteNote`. */
  function IdIsNot(id: Id): StickyNote -> bool {
    (n: StickyNote) => n.id != id
  }

  /** `!note.recipientId`: no recipient, or an empty one, means everyone. */
  predicate IsBroadcast(n: StickyNote) {
    n.recipientId == None || n.recipientId == Some("")
  }

  /** The test inside `visibleNotes`. */
  predicate VisibleTo(n: StickyNote, user: Id) {
    if IsBroadcast(n) then true
    else n.authorId == user || n.recipientId.value == user
  }

  /** `visibleNotes`: what `user` sees of the board. */
  function VisibleNotes(notes: seq<StickyNote>, user: Id): (r: seq<StickyNote>)
    ensures forall n :: n in r <==>
      n in notes && (IsBroadcast(n) || n.authorId == user || n.recipientId == Some(user))
  {
    Filter(notes, SeenBy(user))
  }

  function SeenBy(user: Id): StickyNote -> bool {
    (n: StickyNote) => VisibleTo(n, user)
  }

  /** `isOwner`: the delete button is drawn on a note only for its author. */
  predicate OffersDelete(n: StickyNote, user: Id) {
    n.authorId == user
  }

  /** The ids on which `user`'s view of the board draws a delete button, top to bottom. */
  function DeleteTargets(notes: seq<StickyNote>, user: Id): (ids: seq<Id>)
    ensures forall id :: id in ids ==> exists n :: n in notes && n.authorId == user && n.id == id
    ensures forall n :: n in notes && n.authorId == user ==> n.id in ids
  {
    var mine := Filter(VisibleNotes(notes, user), (n: StickyNote) => OffersDelete(n, user));
    var ids := Map(mine, (n: StickyNote) => n.id);
    assert forall id :: id in ids ==> exists k :: 0 <= k < |mine| && mine[k].id == id;
    forall n | n in notes && n.authorId == user ensures n.id in ids {
      assert n in mine;
      var k :| 0 <= k < |mine| && mine[k] == n;
      assert ids[k] == n.id;
    }
    ids
  }

  /** The recipients the form offers: every roommate except the current user. */
  function RecipientChoices(roommates: seq<Roommate>, user: Id): (r: seq<Roommate>)
    ensures forall rm :: rm in r <==> rm in roommates && rm.id != user
  {
    Filter(roommates, (rm: Roommate) => rm.id != user)
  }

  predicate UniqueIds(notes: seq<StickyNote>) {
    forall i, j :: 0 <= i < |notes| && 0 <= j < |notes| && notes[i].id == notes[j].id ==> i == j
  }

  /** A blank note leaves the board as it was; a non-blank one grows it by exactly that note in front. */
  lemma AddNoteBlankIffUnchanged(
    notes: seq<StickyNote>, content: string, color: string, selectedRecipient: Id,
    currentUser: Id, id: Id, now: Instant)
    ensures AddNote(notes, content, color, selectedRecipient, currentUser, id, now) == notes <==> IsBlank(content)
  {
    var r := AddNote(notes, content, color, selectedRecipient, currentUser, id, now);
    if !IsBlank(content) {
      assert |r| != |notes|;
    }
  }

  /** Deleting keeps the order of the remaining notes and every copy of each of them. */
  lemma DeleteNoteKeepsOthersInOrder(notes: seq<StickyNote>, id: Id)
    ensures IsSubsequence(DeleteNote(notes, id), notes)
    ensures forall n: StickyNote :: n.id != id ==> multiset(DeleteNote(notes, id))[n] == multiset(notes)[n]
  {
    FilterIsSubsequence(notes, IdIsNot(id));
    forall n: StickyNote | n.id != id ensures multiset(DeleteNote(notes, id))[n] == multiset(notes)[n] {
      FilterMultiplicity(notes, IdIsNot(id), n);
    }
  }

  /** Deleting an id no note carries changes nothing. */
  lemma DeleteAbsentNoteIsNoOp(notes: seq<StickyNote>, id: Id)
    requires forall i :: 0 <= i < |notes| ==> notes[i].id != id
    ensures DeleteNote(notes, id) == notes
  {
    FilterKeepsAll(notes, IdIsNot(id));
  }

  /** A user's view keeps the board's order, and keeps every copy of the notes it shows. */
  lemma VisibleNotesKeepOrder(notes: seq<StickyNote>, user: Id)
    ensures IsSubsequence(VisibleNotes(notes, user), notes)
    ensures forall n: StickyNote :: VisibleTo(n, user) ==> multiset(VisibleNotes(notes, user))[n] == multiset(notes)[n]
  {
    FilterIsSubsequence(notes, SeenBy(user));
    forall n: StickyNote | VisibleTo(n, user) ensures multiset(VisibleNotes(notes, user))[n] == multiset(notes)[n] {
      FilterMultiplicity(notes, SeenBy(user), n);
    }
  }

  /** A note from `a` to `b` is seen by `a` and `b` and by nobody else. */
  lemma DirectedNoteIsPrivate(notes: seq<StickyNote>, n: StickyNote, viewer: Id)
    requires n in notes && n.recipientId.Some? && n.recipientId.value != ""
    ensures n in VisibleNotes(notes, viewer) <==> viewer == n.authorId || viewer == n.recipientId.value
  {
  }

  /**
   * With unique ids, pressing a delete button in `user`'s view removes
   * one note only, and it is one `user` wrote.
   */
  lemma DeleteButtonRemovesOnlyOwnNote(notes: seq<StickyNote>, user: Id, id: Id)
    requires UniqueIds(notes)
    requires id in DeleteTargets(notes, user)
    ensures |DeleteNote(notes, id)| == |notes| - 1
    ensures forall n :: n in notes && n !in DeleteNote(notes, id) ==> n.authorId == user
  {
    var m :| m in notes && m.authorId == user && m.id == id;
    var k :| 0 <= k < |notes| && notes[k] == m;
    forall n | n in notes && n !in DeleteNote(notes, id) ensures n.authorId == user {
      var j :| 0 <= j < |notes| && notes[j] == n;
      assert j == k;
    }
    forall x: StickyNote ensures multiset(DeleteNote(notes, id))[x] == if x.id != id then multiset(notes)[x] else 0 {
      FilterMultiplicity(notes, IdIsNot(id), x);
    }
    UniqueIdsRemoveOne(notes, k, id);
  }

  /** With unique ids, exactly one copy of the note at `k` goes, so the length drops by one. */
  lemma {:induction false} UniqueIdsRemoveOne(notes: seq<StickyNote>, k: nat, id: Id)
    requires UniqueIds(notes)
    requires k < |notes| && notes[k].id == id
    ensures |DeleteNote(notes, id)| == |notes| - 1
  {
    if k == 0 {
      assert forall i :: 0 <= i < |notes[1..]| ==> notes[1..][i].id != id by {
        forall i | 0 <= i < |notes[1..]| ensures notes[1..][i].id != id {
          assert notes[1..][i] == notes[i + 1];
        }
      }
      FilterKeepsAll(notes[1..], IdIsNot(id));
    } else {
      assert UniqueIds(notes[1..]) by {
        forall i, j | 0 <= i < |notes[1..]| && 0 <= j < |notes[1..]| && notes[1..][i].id == notes[1..][j].id
          ensures i == j
        {
          assert notes[1..][i] == notes[i + 1] && notes[1..][j] == notes[j + 1];
        }
      }
      assert notes[1..][k - 1] == notes[k];
      UniqueIdsRemoveOne(notes[1..], k - 1, id);
    }
  }

  /** The form can only address a note to everyone or to someone other than its author. */
  lemma FormNeverSelfAddresses(
    roommates: seq<Roommate>, user: Id, selectedRecipient: Id,
    id: Id, content: string, color: string, now: Instant)
    requires selectedRecipient == "" || exists rm :: rm in RecipientChoices(roommates, user) && rm.id == selectedRecipient
    ensures NewNote(id, user, selectedRecipient, content, color, now).recipientId != Some(user)
  {
  }

  /** Roommate u1 writes to u2: u1 and u2 see the note, u3 does not. */
  lemma DirectedNoteExample()
    ensures var n := StickyNote("1", "u1", Some("u2"), "hi", true, "bg-yellow-200", 0);
      && VisibleNotes([n], "u1") == [n]
      && VisibleNotes([n], "u2") == [n]
      && VisibleNotes([n], "u3") == []
  {
    var n := StickyNote("1", "u1", Some("u2"), "hi", true, "bg-yellow-200", 0);
    assert n !in VisibleNotes([n], "u3");
  }
}
