/**
 * The event dispatcher: one fdevent per watched descriptor, the poll table, the
 * list of fdevents with undelivered events, and callbacks that may install,
 * remove and re-arm any of them while a batch is being delivered.
 */
module Fdevent {

  datatype Flag = Read | Write | Error | DontClose
  datatype Revent = PollIn | PollOut | PollErr | PollHup | PollNval | PollRdHup
  datatype PollNode = PollNode(fde: FdEvent, wantIn: bool, wantOut: bool)

  /** What happened to fdevents, in order. */
  datatype Act =
    | Called(fde: FdEvent, events: set<Flag>)    // by the drain loop
    | Direct(fde: FdEvent, events: set<Flag>)    // by the subprocess-exit handler
    | Asked(fde: FdEvent, want: set<Flag>)       // fdevent_set that changed something
    | Forced(fde: FdEvent)                       // READ added to an fdevent already pending
    | Removed(fde: FdEvent)

  class FdEvent {
    var fd: int
    var forceEof: bool
    var active: bool        // state & FDE_ACTIVE
    var pending: bool       // state & FDE_PENDING
    var want: set<Flag>     // state & FDE_EVENTMASK
    var events: set<Flag>

    constructor ()
      ensures !active && !pending && want == {} && events == {}
    {
      fd, forceEof, active, pending, want, events := -1, false, false, false, {}, {};
    }
  }

  /** The events fdevent_process derives from what poll reported. */
  function EventsOf(revents: set<Revent>): (r: set<Flag>)
    ensures Write in r <==> PollOut in revents
    ensures Error in r <==> PollErr in revents || PollHup in revents || PollNval in revents || PollRdHup in revents
    ensures Read in r <==> PollIn in revents || Error in r
    ensures DontClose !in r
  {
    (if PollIn in revents then {Read} else {})
    + (if PollOut in revents then {Write} else {})
    + (if PollErr in revents || PollHup in revents || PollNval in revents then {Read, Error} else {})
    + (if PollRdHup in revents then {Read, Error} else {})
  }

  /** What becomes of the events an fdevent holds when a batch starts. */
  datatype Fate = Waiting(events: set<Flag>) | Delivered(events: set<Flag>) | Dropped

  function NextFate(fate: Fate, f: FdEvent, a: Act): Fate {
    if !fate.Waiting? || a.fde != f then fate
    else match a
      case Called(_, _) => Delivered(fate.events)
      case Direct(_, _) => fate
      case Forced(_) => Waiting(fate.events + {Read})
      case Removed(_) => Dropped
      case Asked(_, want) => if fate.events * want == {} then Dropped else Waiting(fate.events * want)
  }

  /** The fate of f, holding `events` when the batch starts, once `log` has happened. */
  function FateOf(f: FdEvent, events: set<Flag>, log: seq<Act>): Fate {
    if log == [] then (if events == {} then Dropped else Waiting(events))
    else NextFate(FateOf(f, events, log[..|log| - 1]), f, log[|log| - 1])
  }

  /** The event sets the drain loop called f with. */
  function Calls(f: FdEvent, log: seq<Act>): seq<set<Flag>> {
    if log == [] then []
    else
      var a := log[|log| - 1];
      Calls(f, log[..|log| - 1]) + if a.Called? && a.fde == f then [a.events] else []
  }

  /** The undelivered events of an fdevent with that fate. */
  function Held(fate: Fate): set<Flag> {
    if fate.Waiting? then fate.events else {}
  }

  /** The calls an fdevent with that fate has had. */
  function Had(fate: Fate): seq<set<Flag>> {
    if fate.Delivered? then [fate.events] else []
  }

  lemma LogAppend(f: FdEvent, events: set<Flag>, log: seq<Act>, a: Act)
    ensures FateOf(f, events, log + [a]) == NextFate(FateOf(f, events, log), f, a)
    ensures Calls(f, log + [a]) == Calls(f, log) + if a.Called? && a.fde == f then [a.events] else []
  {
    assert (log + [a])[..|log|] == log;
  }

  lemma {:induction false} WaitingHolds(f: FdEvent, events: set<Flag>, log: seq<Act>)
    ensures FateOf(f, events, log).Waiting? ==> Held(FateOf(f, events, log)) != {}
  {
    if log != [] {
      WaitingHolds(f, events, log[..|log| - 1]);
    }
  }

  /** An fdevent with nothing pending when the batch starts is not called in it. */
  lemma {:induction false} NothingDue(f: FdEvent, log: seq<Act>)
    ensures FateOf(f, {}, log) == Dropped
  {
    if log != [] {
      NothingDue(f, log[..|log| - 1]);
    }
  }

  /** Events are lost only by removing the fdevent or by asking for none of what it still held. */
  lemma {:induction false} DroppedMeans(f: FdEvent, events: set<Flag>, log: seq<Act>) returns (i: nat)
    requires events != {} && FateOf(f, events, log) == Dropped
    ensures i < |log| && log[i].fde == f
    ensures log[i].Removed? || (log[i].Asked? && Held(FateOf(f, events, log[..i])) * log[i].want == {})
  {
    var n := |log| - 1;
    if FateOf(f, events, log[..n]) == Dropped {
      i := DroppedMeans(f, events, log[..n]);
      assert log[..n][..i] == log[..i];
    } else {
      i := n;
    }
  }

  /** The fdevents the drain loop called, in order. */
  function CalledOf(log: seq<Act>): seq<FdEvent> {
    if log == [] then []
    else
      var a := log[|log| - 1];
      CalledOf(log[..|log| - 1]) + if a.Called? then [a.fde] else []
  }

  lemma CalledAppend(log: seq<Act>, a: Act)
    ensures CalledOf(log + [a]) == CalledOf(log) + if a.Called? then [a.fde] else []
  {
    assert (log + [a])[..|log|] == log;
  }

  /** What an act leaves of the events of its own fdevent. */
  function Left(events: set<Flag>, a: Act): set<Flag> {
    match a
    case Called(_, _) => {}
    case Direct(_, _) => events
    case Forced(_) => events + {Read}
    case Removed(_) => {}
    case Asked(_, want) => events * want
  }

  /** The fate of f after one more act, from what it held. */
  lemma FateAfter(f: FdEvent, events: set<Flag>, log: seq<Act>, a: Act)
    requires a.fde == f
    requires a.Called? ==> a.events == Held(FateOf(f, events, log)) != {}
    requires a.Forced? ==> Held(FateOf(f, events, log)) != {}
    ensures var was, now := FateOf(f, events, log), FateOf(f, events, log + [a]);
      && Held(now) == Left(Held(was), a)
      && Had(now) == Had(was) + if a.Called? then [a.events] else []
  {
    WaitingHolds(f, events, log);
    LogAppend(f, events, log, a);
  }

  /** Fdevents that held `start` hold `now` and have had the calls they should, if `log` has happened. */
  ghost predicate Agrees(start: map<FdEvent, set<Flag>>, log: seq<Act>, now: map<FdEvent, set<Flag>>) {
    forall f :: f in start ==>
      && f in now && now[f] == Held(FateOf(f, start[f], log))
      && Calls(f, log) == Had(FateOf(f, start[f], log))
  }

  /** An act that does to the events of its fdevent what it should, and to no others, keeps the account. */
  lemma Recorded(start: map<FdEvent, set<Flag>>, log: seq<Act>, a: Act,
                 was: map<FdEvent, set<Flag>>, now: map<FdEvent, set<Flag>>)
    requires Agrees(start, log, was) && start.Keys == now.Keys
    requires forall g :: g in start && g != a.fde ==> now[g] == was[g]
    requires a.fde in start ==> now[a.fde] == Left(was[a.fde], a)
    requires a.fde in start && a.Called? ==> a.events == was[a.fde] != {}
    requires a.fde in start && a.Forced? ==> was[a.fde] != {}
    ensures Agrees(start, log + [a], now)
    ensures CalledOf(log + [a]) == CalledOf(log) + if a.Called? then [a.fde] else []
  {
    CalledAppend(log, a);
    forall g | g in start
      ensures now[g] == Held(FateOf(g, start[g], log + [a]))
      ensures Calls(g, log + [a]) == Had(FateOf(g, start[g], log + [a]))
    {
      LogAppend(g, start[g], log, a);
      if g == a.fde {
        FateAfter(g, start[g], log, a);
      }
    }
  }

  /** No element occurs twice. */
  ghost predicate Distinct(s: seq<FdEvent>) {
    s == [] || (s[0] !in s[1..] && Distinct(s[1..]))
  }

  lemma {:induction false} DistinctAppend(s: seq<FdEvent>, f: FdEvent)
    requires Distinct(s) && f !in s
    ensures Distinct(s + [f])
  {
    if s != [] {
      DistinctAppend(s[1..], f);
      assert (s + [f])[1..] == s[1..] + [f];
    }
  }

  /** std::list::remove on a list without duplicates. */
  function Without(s: seq<FdEvent>, f: FdEvent): (r: seq<FdEvent>)
    ensures f !in r
    ensures |r| <= |s|
    ensures f !in s ==> r == s
    ensures f in s ==> |r| < |s|
    ensures forall g :: g in r ==> g in s
    ensures forall g :: g in s && g != f ==> g in r
    ensures Distinct(s) ==> Distinct(r)
  {
    if s == [] then [] else if s[0] == f then Without(s[1..], f) else [s[0]] + Without(s[1..], f)
  }

  lemma OneOf(s: set<int>)
    ensures s == {} || exists x :: x in s
  {
    if forall x :: x !in s {
      assert s == {};
    }
  }

  lemma AnFdEvent(s: set<FdEvent>)
    ensures s == {} || exists x :: x in s
  {
    if forall x :: x in s ==> false {
      assert s == {};
    }
  }

  /** The fds to poll, in whatever order the table yields them. */
  method InSomeOrder(fds: set<int>) returns (r: seq<int>)
    ensures forall i :: 0 <= i < |r| ==> r[i] in fds
    ensures forall fd :: fd in fds ==> fd in r
    ensures forall i, j :: 0 <= i < j < |r| ==> r[i] != r[j]
  {
    r := [];
    var rest := fds;
    while rest != {}
      invariant forall i :: 0 <= i < |r| ==> r[i] in fds && r[i] !in rest
      invariant forall fd :: fd in fds ==> fd in r || fd in rest
      invariant rest <= fds
      invariant forall i, j :: 0 <= i < j < |r| ==> r[i] != r[j]
      decreases |rest|
    {
      OneOf(rest);
      var fd :| fd in rest;
      r, rest := r + [fd], rest - {fd};
    }
  }

  class Dispatcher {
    var all: set<FdEvent>            // every fdevent object of the program
    var polls: map<int, PollNode>    // g_poll_node_map
    var pending: seq<FdEvent>        // g_pending_list
    ghost var log: seq<Act>          // since the current batch started

    ghost predicate Registered(f: FdEvent)
      reads this, f
    {
      && (f.pending <==> f in pending)
      && (f.pending <==> f.events != {})
      && (!f.active ==> f.events == {} && f.want == {})
      && (f.active ==> f.fd in polls && polls[f.fd].fde == f)
    }

    ghost predicate Mirrors(fd: int, node: PollNode)
      reads node.fde
    {
      && node.fde.active && node.fde.fd == fd && 0 <= fd
      && node.wantIn == (Read in node.fde.want) && node.wantOut == (Write in node.fde.want)
    }

    ghost predicate Valid()
      reads this, all
    {
      && (forall f :: f in pending ==> f in all)
      && (forall fd :: fd in polls ==> polls[fd].fde in all)
      && (forall fd :: fd in polls ==> Mirrors(fd, polls[fd]))
      && (forall f :: f in all ==> Registered(f))
      && Distinct(pending)
    }

    constructor ()
      ensures Valid() && all == {} && polls == map[] && pending == [] && log == []
    {
      all, polls, pending, log := {}, map[], [], [];
    }

    /** The object an owner embeds an fdevent in. */
    method Allocate() returns (f: FdEvent)
      requires Valid()
      modifies this`all
      ensures Valid() && fresh(f) && !f.active && all == old(all) + {f}
    {
      f := new FdEvent();
      all := all + {f};
    }

    method Install(f: FdEvent, fd: int)
      requires Valid() && f in all && !f.active && 0 <= fd && fd !in polls
      modifies this`polls, f
      ensures Valid()
      ensures polls == old(polls)[fd := PollNode(f, false, false)]
      ensures f.fd == fd && f.active && f.want == {} && f.events == {} && !f.pending && !f.forceEof
    {
      assert forall k :: k in polls ==> polls[k].fde != f;
      f.fd, f.forceEof, f.active, f.pending, f.want, f.events := fd, false, true, false, {}, {};
      polls := polls[fd := PollNode(f, false, false)];
    }

    /** Withdraws the pending events of f that are no longer wanted. */
    method Withdraw(f: FdEvent, want: set<Flag>)
      requires Valid() && f in all && f.pending
      modifies this`pending, f`events, f`pending
      ensures Valid() && f.events == old(f.events) * want
      ensures pending == if f.events == {} then Without(old(pending), f) else old(pending)
    {
      f.events := f.events * want;
      if f.events == {} {
        pending := Without(pending, f);
        f.pending := false;
      }
    }

    method Unregister(f: FdEvent)
      requires Valid() && f in all && f.active && !f.pending
      modifies this`polls, f`fd, f`active, f`want
      ensures Valid() && !f.active && f.want == {}
      ensures f.fd == (if DontClose in old(f.want) then old(f.fd) else -1)
      ensures polls == old(polls) - {old(f.fd)}
    {
      polls := polls - {f.fd};
      if DontClose !in f.want {
        f.fd := -1;
      }
      f.active, f.want := false, {};
    }

    method Remove(f: FdEvent)
      requires Valid() && f in all
      modifies this`polls, this`pending, this`log, f
      ensures Valid()
      ensures if old(f.active) then
          && !f.active && f.want == {} && f.events == {}
          && f.fd == (if DontClose in old(f.want) then old(f.fd) else -1)
          && polls == old(polls) - {old(f.fd)} && pending == Without(old(pending), f)
          && log == old(log) + [Removed(f)]
        else
          && polls == old(polls) && pending == old(pending) && log == old(log) && f.events == old(f.events)
          && f.fd == old(f.fd) && f.want == old(f.want) && !f.active
    {
      if f.active {
        if f.pending {
          Withdraw(f, {});
        }
        Unregister(f);
        log := log + [Removed(f)];
      }
    }

    method Update(f: FdEvent, want: set<Flag>)
      requires Valid() && f in all && f.active
      modifies this`polls, f`want
      ensures Valid() && f.want == want
      ensures polls == old(polls)[f.fd := PollNode(f, Read in want, Write in want)]
    {
      var node := polls[f.fd];
      node := node.(wantIn := Read in want);
      node := node.(wantOut := Write in want);
      polls := polls[f.fd := node];
      f.want := want;
    }

    /** fdevent_set; an fdevent that is not active may only be set to what it has. */
    method Set(f: FdEvent, want: set<Flag>)
      requires Valid() && f in all && (f.active || f.want == want)
      modifies this`polls, this`pending, this`log, f`want, f`events, f`pending
      ensures Valid() && f.want == want
      ensures old(f.want) == want ==>
        pending == old(pending) && polls == old(polls) && log == old(log) && f.events == old(f.events)
      ensures old(f.want) != want ==>
        && f.events == old(f.events) * want && log == old(log) + [Asked(f, want)]
        && pending == (if f.events == {} then Without(old(pending), f) else old(pending))
        && polls == old(polls)[f.fd := PollNode(f, Read in want, Write in want)]
    {
      if f.want == want {
        return;
      }
      Update(f, want);
      log := log + [Asked(f, want)];
      if f.pending {
        Withdraw(f, want);
      }
    }

    /** fdevent_add. */
    method Add(f: FdEvent, flags: set<Flag>)
      requires Valid() && f in all && (f.active || flags <= f.want)
      modifies this`polls, this`pending, this`log, f`want, f`events, f`pending
      ensures Valid() && f.want == old(f.want) + flags && |pending| <= |old(pending)|
      ensures f.events == if flags <= old(f.want) then old(f.events) else old(f.events) * f.want
    {
      assert f.want + flags != f.want || flags <= f.want;
      Set(f, f.want + flags);
    }

    /** fdevent_del. */
    method Del(f: FdEvent, flags: set<Flag>)
      requires Valid() && f in all
      modifies this`polls, this`pending, this`log, f`want, f`events, f`pending
      ensures Valid() && f.want == old(f.want) - flags && |pending| <= |old(pending)|
      ensures f.events == if flags !! old(f.want) then old(f.events) else old(f.events) * f.want
    {
      Set(f, f.want - flags);
    }

    /** One iteration of the marking loop of fdevent_process. */
    method Mark(fd: int, revents: set<Revent>)
      requires Valid() && fd in polls && !polls[fd].fde.pending
      modifies this`pending, polls[fd].fde`events, polls[fd].fde`pending
      ensures Valid() && polls[fd].fde.events == EventsOf(revents)
      ensures pending == old(pending) + if EventsOf(revents) == {} then [] else [polls[fd].fde]
    {
      var events := EventsOf(revents);
      if events != {} {
        var fde := polls[fd].fde;
        assert fde.fd == fd;
        fde.events := fde.events + events;
        fde.pending := true;
        DistinctAppend(pending, fde);
        pending := pending + [fde];
      }
    }

    function Reported(ready: map<int, set<Revent>>, fd: int): set<Flag> {
      if fd in ready then EventsOf(ready[fd]) else {}
    }

    /** fdevent_process when poll reports `ready`. */
    method Process(ready: map<int, set<Revent>>)
      requires Valid() && pending == [] && polls != map[]
      modifies this`pending, all`events, all`pending
      ensures Valid()
      ensures forall fd :: fd in polls ==> polls[fd].fde.events == Reported(ready, fd)
    {
      var fds := InSomeOrder(polls.Keys);
      forall fd | fd in polls
        ensures polls[fd].fde.events == {}
      {
        assert Registered(polls[fd].fde);
      }
      for i := 0 to |fds|
        invariant Valid()
        invariant forall j :: 0 <= j < |fds| ==> fds[j] in polls
        invariant forall j :: 0 <= j < i ==> polls[fds[j]].fde.events == Reported(ready, fds[j])
        invariant forall j :: i <= j < |fds| ==> polls[fds[j]].fde.events == {}
      {
        Mark(fds[i], if fds[i] in ready then ready[fds[i]] else {});
      }
    }

    /** Every fdevent in `start`, with the events it held then, is as the log says. */
    ghost predicate Accounted(start: map<FdEvent, set<Flag>>)
      reads this, all, start.Keys
    {
      start.Keys <= all && Agrees(start, log, Now(start))
    }

    /** The list has only lost elements. */
    twostate predicate Shrunk()
      reads this
    {
      |pending| <= |old(pending)| && forall f :: f in pending ==> f in old(pending)
    }

    /** The events now held by the fdevents of `start`. */
    ghost function Now(start: map<FdEvent, set<Flag>>): map<FdEvent, set<Flag>>
      reads start.Keys
    {
      map f | f in start :: f.events
    }

    /** A callback calls fdevent_set. */
    method CallbackSet(f: FdEvent, want: set<Flag>, ghost start: map<FdEvent, set<Flag>>)
      requires Valid() && Accounted(start) && f in all && (f.active || f.want == want)
      modifies this`polls, this`pending, this`log, f`want, f`events, f`pending
      ensures Valid() && Accounted(start) && Shrunk() && CalledOf(log) == CalledOf(old(log))
    {
      ghost var changes := f.want != want;
      Set(f, want);
      if changes {
        Recorded(start, old(log), Asked(f, want), old(Now(start)), Now(start));
      }
    }

    /** A callback calls fdevent_remove. */
    method CallbackRemove(f: FdEvent, ghost start: map<FdEvent, set<Flag>>)
      requires Valid() && Accounted(start) && f in all
      modifies this`polls, this`pending, this`log, f
      ensures Valid() && Accounted(start) && Shrunk() && CalledOf(log) == CalledOf(old(log))
    {
      ghost var changes := f.active;
      Remove(f);
      if changes {
        Recorded(start, old(log), Removed(f), old(Now(start)), Now(start));
      }
    }

    method Pop() returns (f: FdEvent, events: set<Flag>)
      requires Valid() && pending != []
      modifies this`pending, all`events, all`pending
      ensures Valid() && f == old(pending)[0] && events == old(f.events) && f.events == {}
      ensures pending == old(pending)[1..]
      ensures forall g :: g in all && g != f ==> g.events == old(g.events)
    {
      f := pending[0];
      pending := pending[1..];
      events := f.events;
      f.events := {};
      f.pending := false;
    }

    /** Takes the front of the list off for a call of its function. */
    method Take(ghost start: map<FdEvent, set<Flag>>) returns (f: FdEvent, events: set<Flag>)
      requires Valid() && Accounted(start) && pending != []
      modifies this`pending, this`log, all`events, all`pending
      ensures Valid() && Accounted(start)
      ensures f == old(pending)[0] && events == old(f.events) && f.events == {}
      ensures pending == old(pending)[1..] && CalledOf(log) == CalledOf(old(log)) + [f]
    {
      f, events := Pop();
      log := log + [Called(f, events)];
      Recorded(start, old(log), Called(f, events), old(Now(start)), Now(start));
    }

    /** The subprocess on fd has exited; `unread` says whether its output is still being read. */
    method SubprocessExited(fd: int, unread: bool, depth: nat, ghost start: map<FdEvent, set<Flag>>)
      requires Valid() && Accounted(start)
      modifies this, all
      ensures Valid() && Accounted(start) && Shrunk() && old(all) <= all && fresh(all - old(all))
      ensures CalledOf(log) == CalledOf(old(log))
      decreases depth, 3
    {
      if fd in polls {
        var fde := polls[fd].fde;
        fde.forceEof := true;
        if !unread {
          if fde.pending {
            Force(fde, start);
          } else {
            LogDirect(fde, start);
            Callback(depth, start);
          }
        }
      }
    }

    /** f is called with READ at once, without passing through the list. */
    method LogDirect(f: FdEvent, ghost start: map<FdEvent, set<Flag>>)
      requires Valid() && Accounted(start)
      modifies this`log
      ensures Valid() && Accounted(start) && CalledOf(log) == CalledOf(old(log))
    {
      log := log + [Direct(f, {Read})];
      Recorded(start, old(log), Direct(f, {Read}), old(Now(start)), Now(start));
    }

    method AddRead(f: FdEvent)
      requires Valid() && f in all && f.pending
      modifies f`events
      ensures Valid() && f.events == old(f.events) + {Read}
    {
      f.events := f.events + {Read};
    }

    /** READ is added to what f will be called with. */
    method Force(f: FdEvent, ghost start: map<FdEvent, set<Flag>>)
      requires Valid() && Accounted(start) && f in all && f.pending
      modifies this`log, f`events
      ensures Valid() && Accounted(start) && CalledOf(log) == CalledOf(old(log))
    {
      AddRead(f);
      log := log + [Forced(f)];
      Recorded(start, old(log), Forced(f), old(Now(start)), Now(start));
    }

    /** One thing a callback may do to the dispatcher. */
    method CallbackStep(depth: nat, ghost start: map<FdEvent, set<Flag>>)
      requires Valid() && Accounted(start)
      modifies this, all
      ensures Valid() && Accounted(start) && Shrunk() && old(all) <= all && fresh(all - old(all))
      ensures CalledOf(log) == CalledOf(old(log))
      decreases depth, 1
    {
      var fd: int, want: set<Flag>, flag: bool, unread: bool := *, *, *, *;
      if * {
        var f := Allocate();
      } else if depth > 0 && flag {
        SubprocessExited(fd, unread, depth - 1, start);
      } else if all != {} {
        AnFdEvent(all);
        var f :| f in all;
        if * {
          CallbackRemove(f, start);
        } else if f.active || f.want == want {
          CallbackSet(f, want, start);
        } else if 0 <= fd && fd !in polls {
          Install(f, fd);
        }
      }
    }

    /** Any callback: any number of such things, with calls nested at most `depth` deep. */
    method Callback(depth: nat, ghost start: map<FdEvent, set<Flag>>)
      requires Valid() && Accounted(start)
      modifies this, all
      ensures Valid() && Accounted(start) && Shrunk() && old(all) <= all && fresh(all - old(all))
      ensures CalledOf(log) == CalledOf(old(log))
      decreases depth, 2
    {
      var n: nat := *;
      while n > 0
        invariant Valid() && Accounted(start) && Shrunk() && old(all) <= all && fresh(all - old(all))
        invariant CalledOf(log) == CalledOf(old(log))
      {
        CallbackStep(depth, start);
        n := n - 1;
      }
    }

    /** One iteration of the drain loop: pop the front and call its function. */
    method CallFront(ghost start: map<FdEvent, set<Flag>>)
      requires Valid() && Accounted(start) && pending != []
      modifies this, all
      ensures Valid() && Accounted(start) && |pending| < |old(pending)|
      ensures old(all) <= all && fresh(all - old(all))
      ensures forall f :: f in pending ==> f in old(pending)
      ensures CalledOf(log) == CalledOf(old(log)) + [old(pending[0])]
    {
      var f, events := Take(start);
      var depth: nat := *;
      Callback(depth, start);
    }

    /** The drain loop, with the account of what it does. */
    method CallAll(ghost start: map<FdEvent, set<Flag>>)
      requires Valid() && Accounted(start) && log == []
      modifies this, all
      ensures Valid() && Accounted(start) && pending == [] && old(all) <= all && fresh(all - old(all))
      ensures forall f :: f in CalledOf(log) ==> f in old(pending)
    {
      while pending != []
        invariant Valid() && Accounted(start) && old(all) <= all && fresh(all - old(all))
        invariant forall f :: f in pending ==> f in old(pending)
        invariant forall f :: f in CalledOf(log) ==> f in old(pending)
        decreases |pending|
      {
        ghost var called, front := CalledOf(log), pending[0];
        CallFront(start);
        assert CalledOf(log) == called + [front];
      }
    }

    /** A new account is opened. */
    method BeginBatch() returns (ghost start: map<FdEvent, set<Flag>>)
      requires Valid()
      modifies this`log
      ensures Valid() && Accounted(start) && log == []
      ensures start.Keys == all && forall f :: f in all ==> start[f] == f.events
    {
      log := [];
      start := map f | f in all :: f.events;
    }

    /** With nothing pending the account is closed. */
    lemma Settled(start: map<FdEvent, set<Flag>>)
      requires Valid() && Accounted(start) && pending == []
      ensures forall f :: f in start ==>
        !FateOf(f, start[f], log).Waiting? && Calls(f, log) == Had(FateOf(f, start[f], log))
    {
      forall f | f in start
        ensures !FateOf(f, start[f], log).Waiting?
      {
        WaitingHolds(f, start[f], log);
        assert Registered(f) && Now(start)[f] == {};
      }
    }

    /**
     * The drain loop. Every fdevent that was pending is called exactly once, with
     * what was still wanted of its events, unless it was removed or all its events
     * were withdrawn first; no other fdevent is called, also none allocated meanwhile.
     */
    method Drain()
      requires Valid()
      modifies this, all
      ensures Valid() && pending == [] && old(all) <= all && fresh(all - old(all))
      ensures forall f :: f in old(all) ==> Calls(f, log) == Had(FateOf(f, old(f.events), log))
      ensures forall f :: f in old(all) ==> !FateOf(f, old(f.events), log).Waiting?
      ensures forall f :: f in CalledOf(log) ==> f in old(pending)
    {
      ghost var start := BeginBatch();
      CallAll(start);
      Settled(start);
    }

    /** fdevent_loop for any number of rounds, whatever poll reports in each. */
    method Loop()
      requires Valid() && pending == []
      modifies this, all
      ensures Valid() && pending == [] && old(all) <= all && fresh(all - old(all))
    {
      var rounds: nat := *;
      while rounds > 0 && polls != map[]
        invariant Valid() && pending == [] && old(all) <= all && fresh(all - old(all))
      {
        var ready: map<int, set<Revent>> := *;
        if * {
          Process(ready);
        }
        Drain();
        rounds := rounds - 1;
      }
    }
  }
}
