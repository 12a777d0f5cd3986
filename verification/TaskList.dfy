/** The task list of the assistant's page: polls and single updates merge into one list. */
module TaskList {
  import opened SortedLists

  /** A task as the server sent it; `content` stands for every field the merge does not look at. */
  datatype Task = Task(id: string, version: int, created: int, content: string)

  type Board = map<string, Task>

  // ---- The order shown ----

  /** How ids compare, in place of the browser's locale: any strict order that tells all ids apart. */
  type Collation = (string, string) -> bool

  ghost predicate Collates(order: Collation) {
    Strict(order) && forall a, b :: a != b ==> order(a, b) || order(b, a)
  }

  /** Code-point order is such an order. */
  lemma CodePointsCollate()
    ensures Collates((a, b) => Before(a, b))
  {
    forall a, b, c
      ensures !Before(a, a) && (a != b ==> Before(a, b) || Before(b, a))
      ensures Before(a, b) && Before(b, c) ==> Before(a, c)
    {
      BeforeIsStrict(a, b, c);
    }
  }

  /** Newest first; of the same moment, the later id first. */
  predicate Ahead(order: Collation, a: Task, b: Task) {
    b.created < a.created || (a.created == b.created && order(b.id, a.id))
  }

  function Listed(order: Collation): (Task, Task) -> bool { (a, b) => Ahead(order, a, b) }

  lemma ListedIsStrict(order: Collation)
    requires Collates(order)
    ensures Strict(Listed(order))
    ensures forall a: Task, b: Task :: a.id != b.id ==> Listed(order)(a, b) || Listed(order)(b, a)
  {}

  /** The list holds each task of the board once, in the order shown. */
  ghost predicate IsListing(order: Collation, tasks: seq<Task>, board: Board) {
    && Ordered(Listed(order), tasks)
    && (forall t :: t in tasks <==> t.id in board && board[t.id] == t)
  }

  // ---- Merging ----

  /** A task takes its place unless a later version of it is there. */
  function Put(board: Board, task: Task): Board {
    if task.id !in board || board[task.id].version <= task.version then board[task.id := task] else board
  }

  function PutAll(board: Board, incoming: seq<Task>): Board {
    if incoming == [] then board else Put(PutAll(board, incoming[..|incoming| - 1]), incoming[|incoming| - 1])
  }

  /** A map filled from a list: the last of each id stays. */
  function BoardOf(tasks: seq<Task>): (board: Board)
    ensures forall id :: id in board ==> board[id].id == id && board[id] in tasks
    ensures forall t :: t in tasks ==> t.id in board
  {
    if tasks == [] then map[]
    else
      var init, last := tasks[..|tasks| - 1], tasks[|tasks| - 1];
      assert tasks == init + [last];
      BoardOf(init)[last.id := last]
  }

  /** Every entry of the board is filed under its own id. */
  ghost predicate Filed(board: Board) { forall id :: id in board ==> board[id].id == id }

  lemma {:induction false} PutAllFiled(board: Board, incoming: seq<Task>)
    requires Filed(board)
    ensures Filed(PutAll(board, incoming))
  {
    if incoming != [] { PutAllFiled(board, incoming[..|incoming| - 1]); }
  }

  /** `mergeTasks`: the map is filled from what is shown, each incoming task is put, and the values are sorted. */
  method MergeTasks(order: Collation, current: seq<Task>, incoming: seq<Task>) returns (tasks: seq<Task>)
    requires Collates(order)
    ensures IsListing(order, tasks, PutAll(BoardOf(current), incoming))
  {
    var board := BoardOf(current);
    assert incoming[..0] == [];
    for i := 0 to |incoming|
      invariant board == PutAll(BoardOf(current), incoming[..i])
    {
      assert incoming[..i + 1][..i] == incoming[..i];
      board := Put(board, incoming[i]);
    }
    assert incoming[..|incoming|] == incoming;
    PutAllFiled(BoardOf(current), incoming);
    tasks := Values(order, board);
  }

  method Values(order: Collation, board: Board) returns (sorted: seq<Task>)
    requires Collates(order) && Filed(board)
    ensures IsListing(order, sorted, board)
  {
    hide Listed, Strict;
    ListedIsStrict(order);
    sorted := [];
    var left := board.Keys;
    while left != {}
      invariant left <= board.Keys && Ordered(Listed(order), sorted)
      invariant forall t :: t in sorted <==> t.id in board.Keys - left && board[t.id] == t
      decreases left
    {
      var id :| id in left;
      InsertOrdered(Listed(order), sorted, board[id]);
      sorted := Insert(Listed(order), sorted, board[id]);
      left := left - {id};
    }
  }

  // ---- What a merged board holds ----

  /** Each id that arrived is there, under its highest version. */
  ghost predicate Newest(board: Board, arrived: seq<Task>) {
    && Filed(board)
    && (forall t :: t in arrived ==> t.id in board && t.version <= board[t.id].version)
    && (forall id :: id in board ==> board[id] in arrived)
  }

  lemma {:induction false} MergeKeepsNewest(board: Board, arrived: seq<Task>, incoming: seq<Task>)
    requires Newest(board, arrived)
    ensures Newest(PutAll(board, incoming), arrived + incoming)
  {
    hide Newest, Put;
    if incoming == [] {
      assert arrived + [] == arrived;
    } else {
      var init, last := incoming[..|incoming| - 1], incoming[|incoming| - 1];
      MergeKeepsNewest(board, arrived, init);
      PutKeepsNewest(PutAll(board, init), arrived + init, last);
      assert arrived + incoming == arrived + init + [last];
    }
  }

  lemma PutKeepsNewest(board: Board, arrived: seq<Task>, task: Task)
    requires Newest(board, arrived)
    ensures Newest(Put(board, task), arrived + [task])
  {
    var all := arrived + [task];
    assert all[|arrived|] == task;
    assert forall t :: t in all <==> t in arrived || t == task;
  }

  /** A list shown is its own board: the next merge starts from exactly what the last one left. */
  lemma ShownIsItsBoard(order: Collation, tasks: seq<Task>, board: Board)
    requires Filed(board) && IsListing(order, tasks, board)
    ensures BoardOf(tasks) == board
  {
    var again := BoardOf(tasks);
    forall id | id in board ensures id in again { assert board[id] in tasks; }
    forall id | id in again ensures id in board && again[id] == board[id] { assert again[id] in tasks; }
  }

  /** What is shown after merging poll after poll into an empty list. */
  ghost predicate ShownAfter(order: Collation, polls: seq<seq<Task>>, tasks: seq<Task>)
    decreases |polls|
  {
    if polls == [] then tasks == []
    else exists before ::
      && ShownAfter(order, polls[..|polls| - 1], before)
      && IsListing(order, tasks, PutAll(BoardOf(before), polls[|polls| - 1]))
  }

  function Arrived(polls: seq<seq<Task>>): seq<Task> {
    if polls == [] then [] else Arrived(polls[..|polls| - 1]) + polls[|polls| - 1]
  }

  lemma {:induction false} ShowsNewest(order: Collation, polls: seq<seq<Task>>, tasks: seq<Task>) returns (board: Board)
    requires ShownAfter(order, polls, tasks)
    ensures IsListing(order, tasks, board) && Newest(board, Arrived(polls))
  {
    hide IsListing, Newest;
    if polls == [] {
      board := map[];
      EmptyBoard(order);
    } else {
      var init, last := polls[..|polls| - 1], polls[|polls| - 1];
      var before :| ShownAfter(order, init, before) && IsListing(order, tasks, PutAll(BoardOf(before), last));
      board := ShowsNewest(order, init, before);
      NewestIsFiled(board, Arrived(init));
      ShownIsItsBoard(order, before, board);
      MergeKeepsNewest(board, Arrived(init), last);
      board := PutAll(board, last);
    }
  }

  lemma EmptyBoard(order: Collation)
    ensures IsListing(order, [], map[]) && Newest(map[], [])
  {}

  lemma NewestIsFiled(board: Board, arrived: seq<Task>)
    requires Newest(board, arrived)
    ensures Filed(board)
  {}

  /** Every board can be listed. */
  lemma ListingExists(order: Collation, board: Board) returns (tasks: seq<Task>)
    requires Collates(order) && Filed(board)
    ensures IsListing(order, tasks, board)
    decreases |board|
  {
    hide Collates, Listed, Strict, Ordered;
    ListedIsStrict(order);
    if board == map[] {
      tasks := [];
      EmptyBoard(order);
    } else {
      var id :| id in board;
      var rest := board - {id};
      assert rest.Keys == board.Keys - {id};
      var before := ListingExists(order, rest);
      InsertOrdered(Listed(order), before, board[id]);
      tasks := Insert(Listed(order), before, board[id]);
    }
  }

  /** Something is shown after any polls. */
  lemma {:induction false} SomethingIsShown(order: Collation, polls: seq<seq<Task>>) returns (tasks: seq<Task>)
    requires Collates(order)
    ensures ShownAfter(order, polls, tasks)
  {
    hide Collates, IsListing;
    if polls == [] {
      tasks := [];
    } else {
      var init, last := polls[..|polls| - 1], polls[|polls| - 1];
      var before := SomethingIsShown(order, init);
      PutAllFiled(BoardOf(before), last);
      tasks := ListingExists(order, PutAll(BoardOf(before), last));
    }
  }

  // ---- When the order of arrival can be seen ----

  ghost predicate Same(p: seq<seq<Task>>, q: seq<seq<Task>>) { forall t :: t in Arrived(p) <==> t in Arrived(q) }

  /** No task of that id arrived with a higher version. */
  ghost predicate Top(arrived: seq<Task>, t: Task) {
    t in arrived && forall s :: s in arrived && s.id == t.id ==> s.version <= t.version
  }

  /** The highest version that arrived for an id is one content. */
  ghost predicate TopFixes(arrived: seq<Task>) {
    forall s, t :: Top(arrived, s) && Top(arrived, t) && s.id == t.id ==> s == t
  }

  lemma NewestIsOne(a: Board, b: Board, p: seq<Task>, q: seq<Task>)
    requires TopFixes(p) && (forall t :: t in p <==> t in q) && Newest(a, p) && Newest(b, q)
    ensures a == b
  {
    forall id | id in a ensures id in b && a[id] == b[id] {
      assert a[id] in p && b[id] in p;
      assert Top(p, a[id]) && Top(p, b[id]);
    }
    forall id | id in b ensures id in a { assert b[id] in p; }
  }

  /** Whatever the order and grouping in which the same tasks arrive, and however often, the same list is shown: the
      highest version that arrived for an id must be one content. */
  lemma ArrivalOrderIsUnobservable(
    order: Collation, p: seq<seq<Task>>, q: seq<seq<Task>>, shownP: seq<Task>, shownQ: seq<Task>)
    requires Collates(order) && TopFixes(Arrived(p)) && Same(p, q)
    requires ShownAfter(order, p, shownP) && ShownAfter(order, q, shownQ)
    ensures shownP == shownQ
  {
    hide ShownAfter, Newest, TopFixes, Listed, Strict, Ordered, Arrived, Collates;
    var a := ShowsNewest(order, p, shownP);
    var b := ShowsNewest(order, q, shownQ);
    NewestIsOne(a, b, Arrived(p), Arrived(q));
    ListedIsStrict(order);
    OrderedIsUnique(Listed(order), shownP, shownQ);
  }

  /** A task of the top version that arrives last is shown, and no other of its id. */
  lemma LastTopIsShown(order: Collation, polls: seq<seq<Task>>, t: Task, tasks: seq<Task>)
    requires Top(Arrived(polls), t) && ShownAfter(order, polls + [[t]], tasks)
    ensures forall x :: x in tasks && x.id == t.id ==> x == t
    ensures t in tasks
  {
    hide Collates, Listed, Strict, Ordered, Arrived;
    var all := polls + [[t]];
    assert all[..|all| - 1] == polls && all[|all| - 1] == [t];
    var before :| ShownAfter(order, polls, before) && IsListing(order, tasks, PutAll(BoardOf(before), [t]));
    var board := ShowsNewest(order, polls, before);
    hide ShownAfter;
    ShownIsItsBoard(order, before, board);
    assert [t][..0] == [] && PutAll(board, [t]) == Put(PutAll(board, []), t) == Put(board, t);
  }

  lemma OneMoreArrives(polls: seq<seq<Task>>, t: Task)
    requires t in Arrived(polls)
    ensures Same(polls, polls + [[t]])
  {
    var all := polls + [[t]];
    assert all[..|all| - 1] == polls;
    assert Arrived(all) == Arrived(polls) + [t];
  }

  /** The same tasks, arriving in any way whatever, always show the same list. */
  ghost predicate OneList(order: Collation, p: seq<seq<Task>>) {
    forall q, r, shownQ, shownR ::
      Same(p, q) && Same(p, r) && ShownAfter(order, q, shownQ) && ShownAfter(order, r, shownR) ==> shownQ == shownR
  }

  /** The order of arrival cannot be seen, if and only if the highest version that arrived for each id is one content.
      Conflicts at lower versions do not matter. */
  lemma OrderIsUnobservableExactlyWhen(order: Collation, p: seq<seq<Task>>)
    requires Collates(order)
    ensures OneList(order, p) <==> TopFixes(Arrived(p))
  {
    hide ShownAfter, Arrived, Collates, Top;
    if TopFixes(Arrived(p)) {
      forall q, r, shownQ, shownR
        | Same(p, q) && Same(p, r) && ShownAfter(order, q, shownQ) && ShownAfter(order, r, shownR)
        ensures shownQ == shownR
      {
        var shownP := SomethingIsShown(order, p);
        ArrivalOrderIsUnobservable(order, p, q, shownP, shownQ);
        ArrivalOrderIsUnobservable(order, p, r, shownP, shownR);
      }
    } else {
      var s, t :| Top(Arrived(p), s) && Top(Arrived(p), t) && s.id == t.id && s != t;
      TopArrived(Arrived(p), s);
      TopArrived(Arrived(p), t);
      var q, r := p + [[s]], p + [[t]];
      OneMoreArrives(p, s);
      OneMoreArrives(p, t);
      var shownQ := SomethingIsShown(order, q);
      var shownR := SomethingIsShown(order, r);
      LastTopIsShown(order, p, s, shownQ);
      LastTopIsShown(order, p, t, shownR);
      assert shownQ != shownR;
    }
  }

  lemma TopArrived(arrived: seq<Task>, t: Task)
    requires Top(arrived, t)
    ensures t in arrived
  {}

  /** The list shows one task for each id that arrived, none of them older than any that arrived, newest first. */
  lemma ShowsTheNewest(order: Collation, polls: seq<seq<Task>>, tasks: seq<Task>)
    requires Collates(order) && ShownAfter(order, polls, tasks)
    ensures forall t :: t in tasks ==> t in Arrived(polls)
    ensures forall s :: s in Arrived(polls) ==> exists t :: t in tasks && t.id == s.id && t.version >= s.version
    ensures forall i, j :: 0 <= i < j < |tasks| ==>
      && tasks[i].id != tasks[j].id
      && (tasks[i].created > tasks[j].created
          || (tasks[i].created == tasks[j].created && order(tasks[j].id, tasks[i].id)))
  {
    var board := ShowsNewest(order, polls, tasks);
    forall s | s in Arrived(polls) ensures exists t :: t in tasks && t.id == s.id && t.version >= s.version {
      assert board[s.id] in tasks;
    }
    ListedIsStrict(order);
    forall i, j | 0 <= i < j < |tasks| ensures tasks[i].id != tasks[j].id && Ahead(order, tasks[i], tasks[j]) {
      assert Listed(order)(tasks[i], tasks[j]);
      assert tasks[i] in tasks && tasks[j] in tasks;
    }
  }

  /** When two contents share a version, the one that arrives later is shown: then the order does matter. */
  lemma SharedVersionShowsTheLater(order: Collation, x: Task, y: Task)
    requires x.id == y.id && x.version == y.version
    ensures ShownAfter(order, [[x], [y]], [y]) && ShownAfter(order, [[y], [x]], [x])
  {
    TwoPolls(order, x, y);
    TwoPolls(order, y, x);
  }

  lemma TwoPolls(order: Collation, x: Task, y: Task)
    requires x.id == y.id && x.version == y.version
    ensures ShownAfter(order, [[x], [y]], [y])
  {
    var p := [[x], [y]];
    var one := [[x]];
    assert p[..1] == one && one[..0] == [];
    OnePut(order, [], x);
    assert ShownAfter(order, [], []) && ShownAfter(order, one, [x]);
    OnePut(order, [x], y);
    assert BoardOf([x]) == map[x.id := x] by { assert [x][..0] == []; }
  }

  lemma OnePut(order: Collation, before: seq<Task>, t: Task)
    requires before == [] || (|before| == 1 && before[0].id == t.id && before[0].version == t.version)
    ensures IsListing(order, [t], PutAll(BoardOf(before), [t]))
  {
    assert [t][..0] == [];
    if before != [] { assert before[..0] == []; }
    assert PutAll(BoardOf(before), [t]) == map[t.id := t];
  }
}
