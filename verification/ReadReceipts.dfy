/** Read receipts: how far each member has read in each channel, as this client shows it. */
module ReadReceipts {
  import opened Options

  /** One event of the gateway, and whether privacy mode was on when it came in. */
  datatype Receipt = Receipt(channel: string, user: string, at: int, hidden: bool)

  type Marks = map<string, map<string, int>>

  function Marked(marks: Marks, channel: string, user: string): Option<int> {
    if channel in marks && user in marks[channel] then Some(marks[channel][user]) else None
  }

  function OrZero(mark: Option<int>): int { if mark.Some? then mark.value else 0 }

  /** A mark only moves forward. */
  function Note(marks: Marks, e: Receipt): Marks {
    if e.hidden then marks
    else
      var chan := if e.channel in marks then marks[e.channel] else map[];
      if (if e.user in chan then chan[e.user] else 0) >= e.at then marks
      else marks[e.channel := chan[e.user := e.at]]
  }

  function NoteAll(marks: Marks, log: seq<Receipt>): Marks
    decreases |log|
  {
    if log == [] then marks else NoteAll(Note(marks, log[0]), log[1..])
  }

  // ---- Order and duplicates ----

  lemma NotesCommute(marks: Marks, a: Receipt, b: Receipt)
    ensures Note(Note(marks, a), b) == Note(Note(marks, b), a)
  {
    hide NoteIn;
    if a.channel == b.channel && !a.hidden && !b.hidden {
      var chan := if a.channel in marks then marks[a.channel] else map[];
      UsersCommute(chan, a, b);
      NotedAt(marks, a);
      NotedAt(marks, b);
      NotedAt(Note(marks, a), b);
      NotedAt(Note(marks, b), a);
    }
  }

  /** A channel's marks after an event in it. */
  function NoteIn(chan: map<string, int>, e: Receipt): map<string, int> {
    if (if e.user in chan then chan[e.user] else 0) >= e.at then chan else chan[e.user := e.at]
  }

  lemma UsersCommute(chan: map<string, int>, a: Receipt, b: Receipt)
    ensures NoteIn(NoteIn(chan, a), b) == NoteIn(NoteIn(chan, b), a)
  {}

  lemma NotedAt(marks: Marks, e: Receipt)
    requires !e.hidden
    ensures var chan := if e.channel in marks then marks[e.channel] else map[];
      Note(marks, e) == if NoteIn(chan, e) == chan then marks else marks[e.channel := NoteIn(chan, e)]
  {}

  lemma {:induction false} NoteMovesPast(marks: Marks, e: Receipt, log: seq<Receipt>)
    ensures NoteAll(Note(marks, e), log) == Note(NoteAll(marks, log), e)
    decreases |log|
  {
    if log != [] {
      NotesCommute(marks, e, log[0]);
      NoteMovesPast(Note(marks, log[0]), e, log[1..]);
    }
  }

  lemma NoteTwice(marks: Marks, e: Receipt)
    ensures Note(Note(marks, e), e) == Note(marks, e)
  {}

  /** An event that has been folded in changes nothing when it comes again. */
  lemma {:induction false} NotedAgain(marks: Marks, e: Receipt, log: seq<Receipt>)
    requires e in log
    ensures Note(NoteAll(marks, log), e) == NoteAll(marks, log)
    decreases |log|
  {
    if log[0] == e {
      NoteMovesPast(Note(marks, e), e, log[1..]);
      NoteTwice(marks, e);
    } else {
      NotedAgain(Note(marks, log[0]), e, log[1..]);
    }
  }

  lemma {:induction false} NoteAllConcat(marks: Marks, a: seq<Receipt>, b: seq<Receipt>)
    ensures NoteAll(marks, a + b) == NoteAll(NoteAll(marks, a), b)
    decreases |a|
  {
    if a == [] {
      assert a + b == b;
    } else {
      assert (a + b)[1..] == a[1..] + b;
      NoteAllConcat(Note(marks, a[0]), a[1..], b);
    }
  }

  lemma {:induction false} AllNotedAgain(marks: Marks, log: seq<Receipt>, more: seq<Receipt>)
    requires forall e :: e in more ==> e in log
    ensures NoteAll(NoteAll(marks, log), more) == NoteAll(marks, log)
    decreases |more|
  {
    if more != [] {
      assert more[0] in more && forall e :: e in more[1..] ==> e in more;
      NotedAgain(marks, more[0], log);
      AllNotedAgain(marks, log, more[1..]);
    }
  }

  lemma {:induction false} LogsCommute(marks: Marks, a: seq<Receipt>, b: seq<Receipt>)
    ensures NoteAll(NoteAll(marks, a), b) == NoteAll(NoteAll(marks, b), a)
    decreases |b|
  {
    if b != [] {
      NoteMovesPast(marks, b[0], a);
      LogsCommute(Note(marks, b[0]), a, b[1..]);
    }
  }

  /** Two logs of the same events, in any order and with any repetitions, leave the same marks, from any marks. */
  lemma ArrivalOrderIsUnobservable(marks: Marks, a: seq<Receipt>, b: seq<Receipt>)
    requires forall e :: e in a <==> e in b
    ensures NoteAll(marks, a) == NoteAll(marks, b)
  {
    AllNotedAgain(marks, a, b);
    AllNotedAgain(marks, b, a);
    LogsCommute(marks, a, b);
  }

  // ---- What a mark means ----

  ghost predicate About(e: Receipt, channel: string, user: string) {
    !e.hidden && e.channel == channel && e.user == user
  }

  /** A mark is the furthest of where it began and of every shown event about that member. It begins to exist exactly
      with an event later than zero. */
  ghost predicate Furthest(before: Option<int>, log: seq<Receipt>, channel: string, user: string, after: Option<int>) {
    && OrZero(after) >= OrZero(before)
    && (forall e :: e in log && About(e, channel, user) ==> OrZero(after) >= e.at)
    && (after == before
        || exists e :: e in log && About(e, channel, user) && after == Some(e.at) && e.at > OrZero(before))
  }

  lemma {:induction false} MarksAreFurthest(marks: Marks, log: seq<Receipt>, channel: string, user: string)
    ensures Furthest(Marked(marks, channel, user), log, channel, user, Marked(NoteAll(marks, log), channel, user))
    decreases |log|
  {
    if log != [] {
      var first := log[0];
      var next := Note(marks, first);
      MarksAreFurthest(next, log[1..], channel, user);
      assert forall e :: e in log <==> e == first || e in log[1..];
      if About(first, channel, user) {
        assert OrZero(Marked(next, channel, user)) >= first.at;
        assert Marked(next, channel, user) == Marked(marks, channel, user)
          || (Marked(next, channel, user) == Some(first.at) && first.at > OrZero(Marked(marks, channel, user)));
      } else {
        assert Marked(next, channel, user) == Marked(marks, channel, user);
      }
    }
  }
}
