/**
 * The dictionary the engine adapter's resolver stands for: one partial bijection
 * between codes and engine ids per kind, under add, rename and remove (engine/mapping.go).
 */
module ResolverBook {
  import opened Domain

  // code -> engine id
  type Book = map<string, nat>

  datatype Kind = Accounts | Assets | Groups

  datatype Entry = Entry(code: string, id: nat)

  datatype Change =
    | Add(entry: Entry)
    | Rename(oldCode: string, entry: Entry)
    | Remove(entry: Entry)

  const MAX_INT63: nat := 0x7FFF_FFFF_FFFF_FFFF
  const MAX_UINT32: nat := 0xFFFF_FFFF

  // Only the default group, whose code is empty, runs on the reserved id zero.
  predicate ValidId(kind: Kind, e: Entry) {
    match kind
    case Accounts => 1 <= e.id <= MAX_INT63
    case Assets => 1 <= e.id <= MAX_INT63
    case Groups => if e.code == "" then e.id == 0 else 1 <= e.id <= MAX_UINT32
  }

  function Step(kind: Kind, b: Book, change: Change): Result<Book> {
    var e := change.entry;
    if !ValidId(kind, e) then Err(Invalid) else
    match change
    case Add(_) =>
      if e.code in b then Err(AlreadyExists)
      else if e.id in b.Values then Err(Invalid)
      else Ok(b[e.code := e.id])
    case Rename(oldCode, _) =>
      if oldCode !in b || b[oldCode] != e.id then Err(Invalid)
      else if oldCode == e.code then Ok(b)
      else if e.code in b then Err(AlreadyExists)
      else Ok((b - {oldCode})[e.code := e.id])
    case Remove(_) =>
      if e.code !in b || b[e.code] != e.id then Err(Invalid)
      else Ok(b - {e.code})
  }

  // A refused change changes nothing.
  function After(kind: Kind, b: Book, change: Change): Book {
    Step(kind, b, change).GetOr(b)
  }

  function Run(kind: Kind, b: Book, changes: seq<Change>): Book
    decreases |changes|
  {
    if changes == [] then b else Run(kind, After(kind, b, changes[0]), changes[1..])
  }

  predicate Bijective(b: Book) {
    forall c, d | c in b && d in b :: b[c] == b[d] ==> c == d
  }

  predicate ValidIds(kind: Kind, b: Book) {
    forall c | c in b :: ValidId(kind, Entry(c, b[c]))
  }

  predicate Consistent(kind: Kind, b: Book) {
    Bijective(b) && ValidIds(kind, b)
  }

  /** Every history, with refused changes anywhere in it, keeps the dictionary a bijection on valid ids. */
  lemma {:induction false} HistoryKeepsBijection(kind: Kind, b: Book, changes: seq<Change>)
    requires Consistent(kind, b)
    ensures Consistent(kind, Run(kind, b, changes))
    decreases |changes|
  {
    if changes != [] {
      HistoryKeepsBijection(kind, After(kind, b, changes[0]), changes[1..]);
    }
  }

  /** A rename moves one id to a new code and disturbs no other entry. */
  lemma RenameKeepsId(kind: Kind, b: Book, oldCode: string, e: Entry)
    requires Step(kind, b, Rename(oldCode, e)).Ok?
    ensures
      var after := After(kind, b, Rename(oldCode, e));
      && oldCode in b && e.code in after && after[e.code] == b[oldCode]
      && (oldCode != e.code ==> oldCode !in after)
      && after.Values == b.Values
      && after - {oldCode, e.code} == b - {oldCode, e.code}
  {
    var after := After(kind, b, Rename(oldCode, e));
    forall id | id in b.Values
      ensures id in after.Values
    {
      var c :| c in b && b[c] == id;
      if c == oldCode {
        assert after[e.code] == id;
      } else {
        assert after[c] == id;
      }
    }
    forall id | id in after.Values
      ensures id in b.Values
    {
      var c :| c in after && after[c] == id;
      if c == e.code {
        assert b[oldCode] == id;
      } else {
        assert b[c] == id;
      }
    }
  }

  predicate Removes(change: Change, id: nat) {
    change.Remove? && change.entry.id == id
  }

  /** An id once published stays published until a removal names it, however often its code changes. */
  lemma {:induction false} PublishedIdSurvives(kind: Kind, b: Book, changes: seq<Change>, id: nat)
    requires id in b.Values
    requires forall i | 0 <= i < |changes| :: !Removes(changes[i], id)
    ensures id in Run(kind, b, changes).Values
    decreases |changes|
  {
    if changes != [] {
      var change, after := changes[0], After(kind, b, changes[0]);
      if change.Rename? && Step(kind, b, change).Ok? {
        RenameKeepsId(kind, b, change.oldCode, change.entry);
      } else {
        var c :| c in b && b[c] == id;
        assert after[c] == id;
      }
      PublishedIdSurvives(kind, after, changes[1..], id);
    }
  }

  /** Adding an entry and removing it again restores the dictionary exactly. */
  lemma RemoveUndoesAdd(kind: Kind, b: Book, e: Entry)
    requires Step(kind, b, Add(e)).Ok?
    ensures Step(kind, After(kind, b, Add(e)), Remove(e)) == Ok(b)
  {
    assert b[e.code := e.id] - {e.code} == b;
  }

  /** Renaming back restores the dictionary exactly. */
  lemma RenameBackUndoesRename(kind: Kind, b: Book, oldCode: string, e: Entry)
    requires Consistent(kind, b)
    requires Step(kind, b, Rename(oldCode, e)).Ok?
    ensures Step(kind, After(kind, b, Rename(oldCode, e)), Rename(e.code, Entry(oldCode, e.id))) == Ok(b)
  {
    assert ValidId(kind, Entry(oldCode, b[oldCode]));
    if oldCode != e.code {
      assert ((b - {oldCode})[e.code := e.id] - {e.code})[oldCode := e.id] == b;
    }
  }

  // newIDResolver publishes the snapshot's entries one by one and stops at the first refusal.

  function Publish(kind: Kind, entries: seq<Entry>): Result<Book> {
    if entries == [] then Ok(map[]) else
    match Publish(kind, entries[..|entries| - 1])
    case Err(e) => Err(e)
    case Ok(b) => Step(kind, b, Add(entries[|entries| - 1]))
  }

  predicate Publishable(kind: Kind, entries: seq<Entry>) {
    && (forall i | 0 <= i < |entries| :: ValidId(kind, entries[i]))
    && (forall i, j | 0 <= i < j < |entries| ::
          entries[i].code != entries[j].code && entries[i].id != entries[j].id)
  }

  predicate Lists(entries: seq<Entry>, b: Book) {
    && (forall i | 0 <= i < |entries| :: entries[i].code in b && b[entries[i].code] == entries[i].id)
    && (forall c | c in b :: Entry(c, b[c]) in entries)
  }

  lemma ListedIds(entries: seq<Entry>, b: Book, id: nat)
    requires Lists(entries, b)
    ensures id in b.Values <==> exists i :: 0 <= i < |entries| && entries[i].id == id
  {
    if id in b.Values {
      var c :| c in b && b[c] == id;
      assert Entry(c, b[c]) in entries;
    }
    if i :| 0 <= i < |entries| && entries[i].id == id {
      assert b[entries[i].code] == id;
    }
  }

  lemma ListedCodes(entries: seq<Entry>, b: Book, code: string)
    requires Lists(entries, b)
    ensures code in b <==> exists i :: 0 <= i < |entries| && entries[i].code == code
  {
    if code in b {
      assert Entry(code, b[code]) in entries;
    }
  }

  lemma AddedIsListed(kind: Kind, front: seq<Entry>, last: Entry, b: Book)
    requires Lists(front, b) && Step(kind, b, Add(last)).Ok?
    ensures Lists(front + [last], After(kind, b, Add(last)))
  {
    var entries, after := front + [last], After(kind, b, Add(last));
    assert entries[|front|] == last && forall i | 0 <= i < |front| :: entries[i] == front[i];
    ListedCodes(front, b, last.code);
    forall c | c in after
      ensures Entry(c, after[c]) in entries
    {
      if c == last.code {
        assert entries[|front|] == Entry(c, after[c]);
      } else {
        assert Entry(c, b[c]) in front;
      }
    }
  }

  lemma PublishableFront(kind: Kind, front: seq<Entry>, last: Entry)
    ensures Publishable(kind, front + [last]) <==>
              && Publishable(kind, front) && ValidId(kind, last)
              && forall e | e in front :: e.code != last.code && e.id != last.id
  {
    var entries := front + [last];
    assert entries[|front|] == last && forall i | 0 <= i < |front| :: entries[i] == front[i];
    if Publishable(kind, entries) {
      forall e | e in front
        ensures e.code != last.code && e.id != last.id
      {
        var i :| 0 <= i < |front| && front[i] == e;
        assert entries[i] == e && i < |front|;
      }
    }
  }

  lemma PublishOneMore(kind: Kind, front: seq<Entry>, last: Entry, b: Book)
    requires Lists(front, b) && Publishable(kind, front)
    ensures Step(kind, b, Add(last)).Ok? <==> Publishable(kind, front + [last])
    ensures Step(kind, b, Add(last)).Ok? ==> Lists(front + [last], After(kind, b, Add(last)))
  {
    var entries := front + [last];
    ListedIds(front, b, last.id);
    ListedCodes(front, b, last.code);
    PublishableFront(kind, front, last);
    if Step(kind, b, Add(last)).Ok? {
      AddedIsListed(kind, front, last, b);
    }
  }

  /** A snapshot builds exactly when its ids are valid and no code or id repeats; the result is the snapshot. */
  lemma {:induction false} PublishExactly(kind: Kind, entries: seq<Entry>)
    ensures Publish(kind, entries).Ok? <==> Publishable(kind, entries)
    ensures Publish(kind, entries).Ok? ==>
              Lists(entries, Publish(kind, entries).value) && Consistent(kind, Publish(kind, entries).value)
  {
    if entries != [] {
      var front, last := entries[..|entries| - 1], entries[|entries| - 1];
      assert entries == front + [last];
      PublishExactly(kind, front);
      if Publish(kind, front).Ok? {
        PublishOneMore(kind, front, last, Publish(kind, front).value);
      } else {
        RepeatInFront(kind, front, last);
      }
    }
  }

  lemma RepeatInFront(kind: Kind, front: seq<Entry>, last: Entry)
    ensures Publishable(kind, front + [last]) ==> Publishable(kind, front)
  {
    var entries := front + [last];
    assert forall i | 0 <= i < |front| :: entries[i] == front[i];
  }

  // b has this code under this id.
  predicate Has(b: Book, c: string, id: nat) {
    c in b && b[c] == id
  }

  /**
   * Exactly which changes are made: an entry with a valid id is added if neither its code nor its
   * id is taken, renamed if the id is the old code's and the new code is free or the same, and
   * removed if it is there. A valid entry is refused as a duplicate exactly for its code alone.
   */
  lemma ChangesExactly(kind: Kind, b: Book, change: Change)
    ensures
      var e, r := change.entry, Step(kind, b, change);
      && (r.Ok? <==> ValidId(kind, e) && match change
            case Add(_) => e.code !in b && forall c | c in b :: b[c] != e.id
            case Rename(oldCode, _) => oldCode in b && b[oldCode] == e.id && (e.code == oldCode || e.code !in b)
            case Remove(_) => e.code in b && b[e.code] == e.id)
      && (r.Ok? ==> forall c, id :: Has(r.value, c, id) <==> match change
            case Add(_) => (c == e.code && id == e.id) || Has(b, c, id)
            case Rename(oldCode, _) => (c == e.code && id == e.id) || (c != oldCode && Has(b, c, id))
            case Remove(_) => c != e.code && Has(b, c, id))
      && (r.Err? ==> r.error == if ValidId(kind, e) && match change
            case Add(_) => e.code in b
            case Rename(oldCode, _) => oldCode in b && b[oldCode] == e.id && e.code in b
            case Remove(_) => false
          then AlreadyExists else Invalid)
  {
  }

  // The ids the engine can hold for a kind: 63-bit handles, 32-bit group ids, and zero for the
  // default group, whose code is empty, and for nothing else.
  predicate FitsEngine(kind: Kind, code: string, id: nat) {
    if kind == Groups then id < 0x1_0000_0000 && (id == 0 <==> code == "")
    else 0 < id < 0x8000_0000_0000_0000
  }

  /** An id is valid exactly when the engine can hold it, so no history publishes one it cannot. */
  lemma PublishedIdsFit(kind: Kind, b: Book, changes: seq<Change>)
    requires forall c | c in b :: FitsEngine(kind, c, b[c])
    requires Bijective(b)
    ensures forall e :: ValidId(kind, e) <==> FitsEngine(kind, e.code, e.id)
    ensures forall c | c in Run(kind, b, changes) :: FitsEngine(kind, c, Run(kind, b, changes)[c])
  {
    assert forall e :: ValidId(kind, e) <==> FitsEngine(kind, e.code, e.id);
    HistoryKeepsBijection(kind, b, changes);
    assert forall c | c in Run(kind, b, changes) :: ValidId(kind, Entry(c, Run(kind, b, changes)[c]));
  }
}
