/** Reactions under a message: counts kept from add and remove events. */
module Reactions {
  import opened Options

  datatype Group = Group(emoji: string, count: int, me: bool)

  datatype Event = Event(message: string, emoji: string, user: string, added: bool)

  datatype Message = Message(id: string, reactions: seq<Group>)

  function Find(groups: seq<Group>, emoji: string): (r: Option<Group>)
    ensures r.Some? ==> r.value in groups && r.value.emoji == emoji
    ensures r.None? ==> forall g :: g in groups ==> g.emoji != emoji
  {
    if groups == [] then None
    else if groups[0].emoji == emoji then Some(groups[0])
    else Find(groups[1..], emoji)
  }

  function Without(groups: seq<Group>, emoji: string): (r: seq<Group>)
    ensures forall g :: g in r <==> g in groups && g.emoji != emoji
  {
    if groups == [] then []
    else if groups[0].emoji == emoji then Without(groups[1..], emoji)
    else [groups[0]] + Without(groups[1..], emoji)
  }

  function Recounted(groups: seq<Group>, e: Event, count: int, isMe: bool): (r: seq<Group>)
    ensures |r| == |groups|
    ensures forall i :: 0 <= i < |r| ==>
      r[i] == if groups[i].emoji != e.emoji then groups[i]
              else Group(e.emoji, count, if isMe then e.added else groups[i].me)
  {
    if groups == [] then []
    else
      var g := groups[0];
      [if g.emoji == e.emoji then Group(g.emoji, count, if isMe then e.added else g.me) else g]
      + Recounted(groups[1..], e, count, isMe)
  }

  /** One event on the groups of its message; `self` is the signed-in user. */
  function React(groups: seq<Group>, e: Event, self: Option<string>): seq<Group> {
    var existing, isMe := Find(groups, e.emoji), self == Some(e.user);
    if existing.Some? then
      var count := if e.added then existing.value.count + 1 else existing.value.count - 1;
      if count <= 0 then Without(groups, e.emoji) else Recounted(groups, e, count, isMe)
    else if e.added then groups + [Group(e.emoji, 1, isMe)]
    else groups
  }

  // ---- The reactions that stand ----

  /** Who reacted with what. */
  type Standing = set<(string, string)>

  function Apply(standing: Standing, e: Event): Standing {
    if e.added then standing + {(e.user, e.emoji)} else standing - {(e.user, e.emoji)}
  }

  function Users(standing: Standing, emoji: string): set<string> {
    set p | p in standing && p.1 == emoji :: p.0
  }

  ghost predicate Distinct(groups: seq<Group>) {
    forall i, j :: 0 <= i < j < |groups| ==> groups[i].emoji != groups[j].emoji
  }

  /** The group an emoji should have: none when nobody stands by it. */
  function Due(standing: Standing, emoji: string, self: Option<string>): Option<Group> {
    var users := Users(standing, emoji);
    if users == {} then None else Some(Group(emoji, |users|, self.Some? && self.value in users))
  }

  /** The groups are the standing reactions grouped by emoji: each count right, none empty, none missing or double. */
  ghost predicate Regrouped(groups: seq<Group>, standing: Standing, self: Option<string>) {
    Distinct(groups) && forall emoji :: Find(groups, emoji) == Due(standing, emoji, self)
  }

  lemma UsersAfter(standing: Standing, e: Event, emoji: string)
    ensures Users(Apply(standing, e), emoji)
      == if emoji != e.emoji then Users(standing, emoji)
         else if e.added then Users(standing, emoji) + {e.user} else Users(standing, emoji) - {e.user}
    ensures e.user in Users(standing, e.emoji) <==> (e.user, e.emoji) in standing
  {
    UsersAre(standing, emoji);
    UsersAre(standing, e.emoji);
    UsersAre(Apply(standing, e), emoji);
  }

  lemma UsersAre(standing: Standing, emoji: string)
    ensures forall u :: u in Users(standing, emoji) <==> (u, emoji) in standing
  {
    forall u ensures u in Users(standing, emoji) <==> (u, emoji) in standing {
      if (u, emoji) in standing { assert (u, emoji).0 == u; }
    }
  }

  // ---- One event ----

  lemma {:induction false} FindWithout(groups: seq<Group>, emoji: string, x: string)
    requires Distinct(groups)
    ensures Distinct(Without(groups, emoji))
    ensures Find(Without(groups, emoji), x) == if x == emoji then None else Find(groups, x)
  {
    if groups != [] {
      FindWithout(groups[1..], emoji, x);
      var rest := Without(groups[1..], emoji);
      forall j | 0 <= j < |rest| ensures rest[j].emoji != groups[0].emoji {
        assert rest[j] in rest && rest[j] in groups[1..];
      }
    }
  }

  lemma {:induction false} FindRecounted(groups: seq<Group>, e: Event, count: int, isMe: bool, x: string)
    ensures Find(Recounted(groups, e, count, isMe), x)
      == if x == e.emoji && Find(groups, x).Some?
         then Some(Group(x, count, if isMe then e.added else Find(groups, x).value.me))
         else Find(groups, x)
  {
    if groups != [] {
      FindRecounted(groups[1..], e, count, isMe, x);
      assert Recounted(groups, e, count, isMe)[1..] == Recounted(groups[1..], e, count, isMe);
    }
  }

  lemma {:induction false} FindAppended(groups: seq<Group>, g: Group, x: string)
    ensures Find(groups + [g], x) == if Find(groups, x).None? && x == g.emoji then Some(g) else Find(groups, x)
  {
    if groups != [] {
      FindAppended(groups[1..], g, x);
      assert (groups + [g])[1..] == groups[1..] + [g];
    }
  }

  function CountAfter(groups: seq<Group>, e: Event): int {
    var was := Find(groups, e.emoji);
    (if was.Some? then was.value.count else 0) + if e.added then 1 else -1
  }

  function MeAfter(groups: seq<Group>, e: Event, self: Option<string>): bool {
    var was := Find(groups, e.emoji);
    if self == Some(e.user) then e.added else was.Some? && was.value.me
  }

  lemma FindAfter(groups: seq<Group>, e: Event, self: Option<string>, x: string)
    requires Distinct(groups)
    ensures Distinct(React(groups, e, self))
    ensures x != e.emoji ==> Find(React(groups, e, self), x) == Find(groups, x)
    ensures x == e.emoji && (Find(groups, x).Some? ==> Find(groups, x).value.count > 0) ==>
      Find(React(groups, e, self), x)
      == if CountAfter(groups, e) <= 0 then None else Some(Group(x, CountAfter(groups, e), MeAfter(groups, e, self)))
  {
    var was, isMe := Find(groups, e.emoji), self == Some(e.user);
    hide Find, Without, Recounted, Distinct;
    KeepsDistinct(groups, e, CountAfter(groups, e), isMe);
    FindWithout(groups, e.emoji, x);
    FindRecounted(groups, e, CountAfter(groups, e), isMe, x);
    FindAppended(groups, Group(e.emoji, 1, isMe), x);
  }

  lemma KeepsDistinct(groups: seq<Group>, e: Event, count: int, isMe: bool)
    requires Distinct(groups)
    ensures Distinct(Recounted(groups, e, count, isMe))
    ensures Find(groups, e.emoji).None? ==> Distinct(groups + [Group(e.emoji, 1, isMe)])
  {
    hide Find, Recounted;
    assert forall i :: 0 <= i < |groups| ==> groups[i] in groups;
  }

  /** An event the server's own record bears out: it adds what was not there or removes what was. */
  predicate Fits(standing: Standing, e: Event) { e.added <==> (e.user, e.emoji) !in standing }

  /** One event keeps the groups right exactly when it fits, or removes from an emoji nobody stands by. */
  lemma ReactionStep(groups: seq<Group>, standing: Standing, e: Event, self: Option<string>)
    requires Regrouped(groups, standing, self)
    ensures Regrouped(React(groups, e, self), Apply(standing, e), self)
      <==> Fits(standing, e) || (!e.added && Users(standing, e.emoji) == {})
  {
    hide React, Users, Apply, Distinct, Find, Fits;
    var after, now := React(groups, e, self), Apply(standing, e);
    forall x | x != e.emoji ensures Find(after, x) == Due(now, x, self) {
      FindAfter(groups, e, self, x);
      UsersAfter(standing, e, x);
    }
    FindAfter(groups, e, self, e.emoji);
    OwnGroup(groups, standing, e, self);
  }

  lemma OwnGroup(groups: seq<Group>, standing: Standing, e: Event, self: Option<string>)
    requires Regrouped(groups, standing, self)
    ensures Find(React(groups, e, self), e.emoji) == Due(Apply(standing, e), e.emoji, self)
      <==> Fits(standing, e) || (!e.added && Users(standing, e.emoji) == {})
  {
    hide React, Users, Apply, Distinct, Find;
    assert Find(groups, e.emoji) == Due(standing, e.emoji, self);
    FindAfter(groups, e, self, e.emoji);
    UsersAfter(standing, e, e.emoji);
    var users, mine := Users(standing, e.emoji), Users(Apply(standing, e), e.emoji);
    if e.user in users {
      assert |users - {e.user}| == |users| - 1;
      if e.added { assert mine == users; }
    } else {
      if !e.added { assert mine == users; }
    }
  }

  // ---- A whole log ----

  function ReactAll(groups: seq<Group>, log: seq<Event>, self: Option<string>): seq<Group> {
    if log == [] then groups
    else React(ReactAll(groups, log[..|log| - 1], self), log[|log| - 1], self)
  }

  function ApplyAll(standing: Standing, log: seq<Event>): Standing {
    if log == [] then standing else Apply(ApplyAll(standing, log[..|log| - 1]), log[|log| - 1])
  }

  /** Every event fits what stands when it comes. */
  predicate WellFormed(standing: Standing, log: seq<Event>) {
    log == []
    || (WellFormed(standing, log[..|log| - 1]) && Fits(ApplyAll(standing, log[..|log| - 1]), log[|log| - 1]))
  }

  /** Folding a well-formed log is regrouping what stands after it. */
  lemma {:induction false} LogRegroups(groups: seq<Group>, standing: Standing, log: seq<Event>, self: Option<string>)
    requires Regrouped(groups, standing, self) && WellFormed(standing, log)
    ensures Regrouped(ReactAll(groups, log, self), ApplyAll(standing, log), self)
  {
    hide Regrouped, React, Apply, Fits;
    if log != [] {
      var init := log[..|log| - 1];
      LogRegroups(groups, standing, init, self);
      ReactionStep(ReactAll(groups, init, self), ApplyAll(standing, init), log[|log| - 1], self);
    }
  }

  // ---- The order of the groups ----

  function Position(groups: seq<Group>, emoji: string): (i: nat)
    ensures i <= |groups|
  {
    if groups == [] || groups[0].emoji == emoji then 0 else 1 + Position(groups[1..], emoji)
  }

  /** When an emoji's group came to be: with the last event that found nobody standing by it, or before the log, in the
      place it had then. */
  function Born(groups: seq<Group>, standing: Standing, log: seq<Event>, emoji: string): (n: nat)
    ensures n <= |groups| + |log|
  {
    if log == [] then Position(groups, emoji)
    else
      var init, e := log[..|log| - 1], log[|log| - 1];
      if e.added && e.emoji == emoji && Users(ApplyAll(standing, init), emoji) == {} then |groups| + |log|
      else Born(groups, standing, init, emoji)
  }

  ghost predicate Rising(groups: seq<Group>, rank: string -> nat) {
    forall i, j :: 0 <= i < j < |groups| ==> rank(groups[i].emoji) < rank(groups[j].emoji)
  }

  lemma {:induction false} WithoutRises(groups: seq<Group>, emoji: string, rank: string -> nat)
    requires Rising(groups, rank)
    ensures Rising(Without(groups, emoji), rank)
  {
    if groups != [] {
      WithoutRises(groups[1..], emoji, rank);
      var rest := Without(groups[1..], emoji);
      forall j | 0 <= j < |rest| ensures rank(groups[0].emoji) < rank(rest[j].emoji) {
        assert rest[j] in rest && rest[j] in groups[1..];
      }
    }
  }

  lemma {:induction false} PositionsRise(groups: seq<Group>, i: nat)
    requires Distinct(groups) && i < |groups|
    ensures Position(groups, groups[i].emoji) == i
  {
    if i > 0 {
      PositionsRise(groups[1..], i - 1);
    }
  }

  /** One event on groups in order of their birth: a new group goes last. */
  lemma ReactRises(groups: seq<Group>, e: Event, self: Option<string>, rank: string -> nat, rank': string -> nat)
    requires Rising(groups, rank)
    requires forall g :: g in groups ==> rank'(g.emoji) == rank(g.emoji)
    requires Find(groups, e.emoji).None? && e.added ==> forall g :: g in groups ==> rank(g.emoji) < rank'(e.emoji)
    ensures Rising(React(groups, e, self), rank')
  {
    hide Find, Without, Recounted, Rising;
    var isMe := self == Some(e.user);
    SameRise(groups, rank, rank');
    WithoutRises(groups, e.emoji, rank');
    RecountedRises(groups, e, CountAfter(groups, e), isMe, rank');
    if Find(groups, e.emoji).None? && e.added {
      AppendedRises(groups, Group(e.emoji, 1, isMe), rank, rank');
    }
  }

  lemma SameRise(groups: seq<Group>, rank: string -> nat, rank': string -> nat)
    requires Rising(groups, rank) && forall g :: g in groups ==> rank'(g.emoji) == rank(g.emoji)
    ensures Rising(groups, rank')
  {
    assert forall i :: 0 <= i < |groups| ==> groups[i] in groups;
  }

  lemma RecountedRises(groups: seq<Group>, e: Event, count: int, isMe: bool, rank: string -> nat)
    requires Rising(groups, rank)
    ensures Rising(Recounted(groups, e, count, isMe), rank)
  {
    var recounted := Recounted(groups, e, count, isMe);
    assert forall i :: 0 <= i < |groups| ==> recounted[i].emoji == groups[i].emoji;
  }

  lemma AppendedRises(groups: seq<Group>, g: Group, rank: string -> nat, rank': string -> nat)
    requires Rising(groups, rank') && forall h :: h in groups ==> rank(h.emoji) < rank'(g.emoji)
    requires forall h :: h in groups ==> rank'(h.emoji) == rank(h.emoji)
    ensures Rising(groups + [g], rank')
  {
    assert forall i :: 0 <= i < |groups| ==> groups[i] in groups;
  }

  /** The groups stand in the order in which they came to be. */
  lemma {:induction false} GroupsStandByBirth(
    groups: seq<Group>, standing: Standing, log: seq<Event>, self: Option<string>)
    requires Regrouped(groups, standing, self) && WellFormed(standing, log)
    ensures Rising(ReactAll(groups, log, self), emoji => Born(groups, standing, log, emoji))
    decreases |log|
  {
    if log == [] {
      forall i, j | 0 <= i < j < |groups|
        ensures Born(groups, standing, [], groups[i].emoji) < Born(groups, standing, [], groups[j].emoji)
      {
        PositionsRise(groups, i);
        PositionsRise(groups, j);
      }
    } else {
      hide React, Regrouped, Fits, Apply, Users;
      var init, e := log[..|log| - 1], log[|log| - 1];
      GroupsStandByBirth(groups, standing, init, self);
      LogRegroups(groups, standing, init, self);
      var before := ReactAll(groups, init, self);
      FoundMeansUsed(before, ApplyAll(standing, init), self);
      var rank := emoji => Born(groups, standing, init, emoji);
      var rank' := emoji => Born(groups, standing, log, emoji);
      forall g | g in before ensures rank'(g.emoji) == rank(g.emoji) {}
      ReactRises(before, e, self, rank, rank');
    }
  }

  lemma FoundMeansUsed(groups: seq<Group>, standing: Standing, self: Option<string>)
    requires Regrouped(groups, standing, self)
    ensures forall g :: g in groups ==> Users(standing, g.emoji) != {}
    ensures forall emoji :: Find(groups, emoji).None? <==> Users(standing, emoji) == {}
  {
    forall g | g in groups ensures Users(standing, g.emoji) != {} {
      FoundOnce(groups, g);
    }
  }

  /** Read in terms of lists: no empty or double group, and every count and mark is that of the standing reactions. */
  lemma RegroupedGroups(groups: seq<Group>, standing: Standing, self: Option<string>, g: Group)
    requires Regrouped(groups, standing, self)
    ensures g in groups <==> Due(standing, g.emoji, self) == Some(g)
    ensures g in groups ==> g.count > 0
  {
    hide Due;
    if g in groups {
      FoundOnce(groups, g);
    }
    assert Find(groups, g.emoji) == Due(standing, g.emoji, self);
    DueIsNotEmpty(standing, g.emoji, self);
  }

  lemma {:induction false} FoundOnce(groups: seq<Group>, g: Group)
    requires Distinct(groups) && g in groups
    ensures Find(groups, g.emoji) == Some(g)
  {
    if groups[0] != g {
      var i :| 0 <= i < |groups| && groups[i] == g;
      assert groups[1..][i - 1] == g;
      FoundOnce(groups[1..], g);
    }
  }

  lemma DueIsNotEmpty(standing: Standing, emoji: string, self: Option<string>)
    ensures Due(standing, emoji, self).Some? ==> Due(standing, emoji, self).value.count > 0
  {}

  /** The server tells of a reaction after it is committed, so a removal can overtake the addition it undoes. Then the
      client shows one reaction where none stands. */
  lemma OvertakenRemovalLeavesAGroup(message: string, emoji: string, user: string, self: Option<string>)
    ensures var add, remove := Event(message, emoji, user, true), Event(message, emoji, user, false);
      && ReactAll([], [add, remove], self) == []
      && ReactAll([], [remove, add], self) == [Group(emoji, 1, self == Some(user))]
  {
    var add, remove := Event(message, emoji, user, true), Event(message, emoji, user, false);
    assert [add, remove][..1] == [add] && [remove, add][..1] == [remove];
    assert [add][..0] == [] && [remove][..0] == [];
    assert ReactAll([], [add], self) == React([], add, self) == [Group(emoji, 1, self == Some(user))];
    assert ReactAll([], [remove], self) == React([], remove, self) == [];
    var g := Group(emoji, 1, self == Some(user));
    assert Without([g], emoji) == [] && React([g], remove, self) == [];
  }

  // ---- All messages ----

  /** The event falls on the messages with its id. */
  function Update(messages: seq<Message>, e: Event, self: Option<string>): (r: seq<Message>)
    ensures |r| == |messages|
    ensures forall i :: 0 <= i < |r| ==> r[i].id == messages[i].id
    ensures forall i :: 0 <= i < |r| ==>
      r[i].reactions == if messages[i].id != e.message then messages[i].reactions
                        else React(messages[i].reactions, e, self)
  {
    seq(|messages|, i requires 0 <= i < |messages| =>
      if messages[i].id != e.message then messages[i]
      else messages[i].(reactions := React(messages[i].reactions, e, self)))
  }

  function UpdateAll(messages: seq<Message>, log: seq<Event>, self: Option<string>): (r: seq<Message>)
    ensures |r| == |messages|
  {
    if log == [] then messages else Update(UpdateAll(messages, log[..|log| - 1], self), log[|log| - 1], self)
  }

  function Concerning(log: seq<Event>, message: string): seq<Event> {
    if log == [] then []
    else Concerning(log[..|log| - 1], message) + if log[|log| - 1].message == message then [log[|log| - 1]] else []
  }

  /** Each message sees exactly the events about it: any interleaving of well-formed logs leaves every message right. */
  lemma {:induction false} MessagesAreIndependent(
    messages: seq<Message>, log: seq<Event>, self: Option<string>, k: nat, standing: Standing)
    requires k < |messages| && Regrouped(messages[k].reactions, standing, self)
    requires WellFormed(standing, Concerning(log, messages[k].id))
    ensures var own := Concerning(log, messages[k].id);
      && UpdateAll(messages, log, self)[k] == Message(messages[k].id, ReactAll(messages[k].reactions, own, self))
      && Regrouped(UpdateAll(messages, log, self)[k].reactions, ApplyAll(standing, own), self)
  {
    OwnEventsOnly(messages, log, self, k);
    LogRegroups(messages[k].reactions, standing, Concerning(log, messages[k].id), self);
  }

  lemma {:induction false} OwnEventsOnly(messages: seq<Message>, log: seq<Event>, self: Option<string>, k: nat)
    requires k < |messages|
    ensures UpdateAll(messages, log, self)[k]
      == Message(messages[k].id, ReactAll(messages[k].reactions, Concerning(log, messages[k].id), self))
  {
    hide React;
    if log != [] {
      var init, last := log[..|log| - 1], log[|log| - 1];
      OwnEventsOnly(messages, init, self, k);
      var own := Concerning(init, messages[k].id);
      assert (own + [last])[..|own|] == own && own + [] == own;
    }
  }
}
