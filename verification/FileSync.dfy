/**
 * Pushing files over a sync connection: the client and the service run side by
 * side, joined by a stream of requests one way and of replies the other. One
 * step of `Next` is one of them doing one thing the other can see.
 */
module FileSync {
  import opened Bytes

  const SYNC_DATA_MAX := 64 * 1024
  const HEADER := 8      // sizeof(SyncRequest)

  datatype Request = Send | Data(data: bytes) | Done
  datatype Reply = Okay | Fail

  /** Where the client is in sync_send. */
  datatype ClientAt =
    | Ready                      // between files
    | Reading                    // SendLargeFile, about to read the local file
    | Polling                    // SendLargeFile, about to look for an early reply
    | Finishing                  // SendLargeFile, about to send DONE
    | Awaiting                   // CopyDone
    | GaveUp                     // sync_send returned false; the next file may follow
    | Exited

  datatype Client = Client(
    at: ClientAt,
    file: bytes,                 // what reading the local file to its end yields
    pos: nat,                    // how much of it has been read
    expectDone: bool,
    cut: bool)                   // poll itself failed with part of this file unread

  datatype ServiceAt = Waiting | Receiving | Draining | Closed

  datatype Service = Service(at: ServiceAt, written: bytes)

  datatype Push = Push(client: Client, service: Service, requests: seq<Request>, replies: seq<Reply>)

  const Begin := Push(Client(Ready, [], 0, false, false), Service(Waiting, []), [], [])

  datatype ClientStep =
    | SmallFile(file: bytes)
    | LargeFile(file: bytes)
    | ReadChunk(count: nat)
    | ReadFails
    | Poll(failed: bool, readable: bool)
    | Finish
    | CopyDone
    | PathTooLong
    | Exit                       // a write failed, or there are no more files

  /** `told` says whether the reply could be written. */
  datatype ServiceStep =
    | Open(created: bool, drains: bool, told: bool)
    | Receive(stored: bool, told: bool)
    | Complete(updated: bool, told: bool)
    | Refuse(told: bool)
    | Skip
    | HangUp

  datatype Step = ByClient(c: ClientStep) | ByService(v: ServiceStep)

  predicate BetweenFiles(at: ClientAt) {
    at.Ready? || at.GaveUp?
  }

  predicate ClientMay(s: Push, step: ClientStep) {
    var c := s.client;
    match step
    case SmallFile(file) => BetweenFiles(c.at) && |file| < SYNC_DATA_MAX
    case LargeFile(_) => BetweenFiles(c.at)
    case ReadChunk(count) =>
      && c.at.Reading? && c.pos <= |c.file| && (count == 0 <==> c.pos == |c.file|)
      && count <= Min(SYNC_DATA_MAX - HEADER, |c.file| - c.pos)
    case ReadFails => c.at.Reading?
    case Poll(failed, readable) => c.at.Polling? && (readable ==> s.replies != [] || s.service.at.Closed?)
    case Finish => c.at.Finishing?
    case CopyDone => c.at.Awaiting? && (s.replies != [] || s.service.at.Closed?)
    case PathTooLong => BetweenFiles(c.at)
    case Exit => BetweenFiles(c.at) || c.at.Reading? || c.at.Finishing?
  }

  function ClientNext(s: Push, step: ClientStep): Push
    requires ClientMay(s, step)
  {
    var c := s.client;
    match step
    case SmallFile(file) =>
      s.(client := Client(Awaiting, file, |file|, true, false), requests := s.requests + [Send] + [Data(file)] + [Done])
    case LargeFile(file) =>
      s.(client := Client(Reading, file, 0, c.expectDone, false), requests := s.requests + [Send])
    case ReadChunk(count) =>
      if count == 0 then s.(client := c.(at := Finishing))
      else s.(client := c.(at := Polling, pos := c.pos + count),
              requests := s.requests + [Data(c.file[c.pos..c.pos + count])])
    case Poll(failed, readable) =>
      s.(client := c.(at := if failed || readable then Finishing else Reading, cut := failed && c.pos < |c.file|))
    case Finish =>
      s.(client := c.(at := Awaiting, expectDone := true), requests := s.requests + [Done])
    case CopyDone =>
      if s.replies == [] then s.(client := c.(at := GaveUp))
      else if s.replies[0].Okay? then s.(client := c.(at := Ready, expectDone := false), replies := s.replies[1..])
      else s.(client := c.(at := GaveUp), replies := s.replies[1..])
    case ReadFails => s.(client := c.(at := GaveUp))
    case PathTooLong => s.(client := c.(at := GaveUp))
    case Exit => s.(client := c.(at := Exited))
  }

  predicate ServiceMay(s: Push, step: ServiceStep) {
    var at := s.service.at;
    match step
    case Open(_, _, _) => at.Waiting? && s.requests != [] && s.requests[0].Send?
    case Receive(_, _) => at.Receiving? && s.requests != [] && s.requests[0].Data?
    case Complete(_, _) => at.Receiving? && s.requests != [] && s.requests[0].Done?
    case Refuse(_) => s.requests != [] && (if s.requests[0].Send? then at.Receiving? else at.Waiting?)
    case Skip => at.Draining? && s.requests != []
    case HangUp => !at.Closed? && s.requests == [] && s.client.at.Exited?
  }

  function Fails(s: Push, at: ServiceAt, told: bool): Push {
    s.(service := s.service.(at := at), replies := if told then s.replies + [Fail] else s.replies)
  }

  function ServiceNext(s: Push, step: ServiceStep): Push
    requires ServiceMay(s, step)
  {
    if step.HangUp? then s.(service := s.service.(at := Closed))
    else
      var r := s.requests[0];
      var t := s.(requests := s.requests[1..]);
      match step
      case Open(created, drains, told) =>
        if created then t.(service := Service(Receiving, []))
        else Fails(t, if drains then Draining else Closed, told)
      case Receive(stored, told) =>
        if stored then t.(service := s.service.(written := s.service.written + r.data))
        else Fails(t, Draining, told)
      case Complete(updated, told) =>
        if !updated then Fails(t, Draining, told)
        else if told then t.(service := s.service.(at := Waiting), replies := s.replies + [Okay])
        else t.(service := s.service.(at := Closed))
      case Refuse(told) => Fails(t, Closed, told)
      case Skip => t.(service := s.service.(at := if r.Data? then Draining else Closed))
      case HangUp => t
  }

  predicate Enabled(s: Push, step: Step) {
    match step
    case ByClient(c) => ClientMay(s, c)
    case ByService(v) => ServiceMay(s, v)
  }

  function Next(s: Push, step: Step): Push
    requires Enabled(s, step)
  {
    match step
    case ByClient(c) => ClientNext(s, c)
    case ByService(v) => ServiceNext(s, v)
  }

  /** rs is SEND if `open`, then DATA messages that carry `data`, then DONE if `done`. */
  predicate Carries(rs: seq<Request>, open: bool, data: bytes, done: bool) {
    if rs == [] then !open && data == [] && !done
    else match rs[0]
      case Send => open && Carries(rs[1..], false, data, done)
      case Data(d) => !open && d <= data && Carries(rs[1..], false, data[|d|..], done)
      case Done => !open && data == [] && done && |rs| == 1
  }

  lemma {:induction false} CarriesMore(rs: seq<Request>, open: bool, data: bytes, more: bytes)
    requires Carries(rs, open, data, false)
    ensures Carries(rs + [Data(more)], open, data + more, false)
    ensures Carries(rs + [Done], open, data, true)
  {
    if rs == [] {
      assert (rs + [Data(more)])[1..] == [] && more[|more|..] == [];
    } else {
      assert (rs + [Data(more)])[1..] == rs[1..] + [Data(more)] && (rs + [Done])[1..] == rs[1..] + [Done];
      if rs[0].Send? {
        CarriesMore(rs[1..], false, data, more);
      } else {
        CarriesMore(rs[1..], false, data[|rs[0].data|..], more);
        assert (data + more)[|rs[0].data|..] == data[|rs[0].data|..] + more;
      }
    }
  }

  predicate OnlyFails(replies: seq<Reply>) {
    forall i :: 0 <= i < |replies| ==> replies[i].Fail?
  }

  /** The service has given up; all it may have said is FAIL. */
  predicate Failed(s: Push) {
    (s.service.at.Draining? || s.service.at.Closed?) && OnlyFails(s.replies)
  }

  /** A SEND comes before any DONE, or there is neither: the file begun before rs is not completed by it. */
  predicate Stalls(rs: seq<Request>) {
    rs == [] || rs[0].Send? || (rs[0].Data? && Stalls(rs[1..]))
  }

  /** As Stalls, and the SEND is there. */
  predicate Restarts(rs: seq<Request>) {
    rs != [] && (rs[0].Send? || (rs[0].Data? && Restarts(rs[1..])))
  }

  lemma {:induction false} RestartsMore(rs: seq<Request>, r: Request)
    ensures Stalls(rs) && r.Send? ==> Restarts(rs + [r])
    ensures Restarts(rs) ==> Restarts(rs + [r]) && Stalls(rs)
  {
    if rs != [] {
      RestartsMore(rs[1..], r);
      assert (rs + [r])[1..] == rs[1..] + [r];
    }
  }

  lemma {:induction false} UnfinishedStalls(rs: seq<Request>, data: bytes)
    requires Carries(rs, false, data, false)
    ensures Stalls(rs)
  {
    if rs != [] {
      UnfinishedStalls(rs[1..], data[|rs[0].data|..]);
    }
  }

  /** An earlier file was left unfinished: the service waits for the rest of it, or has given up. */
  predicate Stuck(s: Push) {
    || Failed(s)
    || (s.replies == [] && s.service.at.Receiving? && Stalls(s.requests))
    || (s.replies == [] && s.service.at.Waiting? && s.requests != [] && s.requests[0].Send? && Stalls(s.requests[1..]))
  }

  /** And another one was begun after it, which the service will refuse. */
  predicate Lost(s: Push) {
    || Failed(s)
    || (s.replies == [] && s.service.at.Receiving? && Restarts(s.requests))
    || (s.replies == [] && s.service.at.Waiting? && s.requests != [] && s.requests[0].Send? &&
        Restarts(s.requests[1..]))
  }

  predicate Idle(s: Push) {
    s.service.at.Waiting? && s.requests == [] && s.replies == []
  }

  lemma LostMore(s: Push, r: Request)
    ensures Stuck(s) && r.Send? ==> Lost(s.(requests := s.requests + [r]))
    ensures Lost(s) ==> Lost(s.(requests := s.requests + [r])) && Stuck(s)
  {
    RestartsMore(s.requests, r);
    if s.requests != [] {
      RestartsMore(s.requests[1..], r);
      assert (s.requests + [r])[1..] == s.requests[1..] + [r];
    }
  }

  /** The service is still taking the file, or has taken all of it. */
  predicate InStep(at: ServiceAt, written: bytes, requests: seq<Request>, replies: seq<Reply>,
                   data: bytes, done: bool)
  {
    if replies == [] then
      || (at.Waiting? && Carries(requests, true, data, done))
      || (at.Receiving? && written <= data && Carries(requests, false, data[|written|..], done))
    else
      replies == [Okay] && at.Waiting? && requests == [] && done && written == data
  }

  predicate Taking(s: Push) {
    s.client.pos <= |s.client.file|
    && InStep(s.service.at, s.service.written, s.requests, s.replies,
              s.client.file[..s.client.pos], s.client.at.Awaiting?)
  }

  predicate PushOk(s: Push) {
    var c := s.client;
    match c.at
    case Exited => true
    case Ready => Idle(s)
    case GaveUp => Idle(s) || Stuck(s)
    case _ =>
      && c.pos <= |c.file| && (c.at.Awaiting? ==> c.expectDone)
      && (Lost(s) || (Taking(s) && ReadToEnd(c)))
  }

  /** Unless it was cut, a file is sent to its end. */
  predicate ReadToEnd(c: Client) {
    if c.at.Finishing? || c.at.Awaiting? then c.cut <==> c.pos != |c.file| else !c.cut
  }

  lemma InStepMore(at: ServiceAt, written: bytes, requests: seq<Request>, data: bytes, more: bytes)
    requires InStep(at, written, requests, [], data, false)
    ensures InStep(at, written, requests + [Data(more)], [], data + more, false)
    ensures InStep(at, written, requests + [Done], [], data, true)
  {
    if at.Waiting? {
      CarriesMore(requests, true, data, more);
    } else {
      CarriesMore(requests, false, data[|written|..], more);
      assert (data + more)[|written|..] == data[|written|..] + more;
    }
  }

  lemma BeginFile(s: Push, file: bytes)
    requires PushOk(s) && BetweenFiles(s.client.at)
    ensures PushOk(ClientNext(s, LargeFile(file)))
    ensures |file| < SYNC_DATA_MAX ==> PushOk(ClientNext(s, SmallFile(file)))
  {
    var t := s.(requests := s.requests + [Send]);
    var u := t.(requests := t.requests + [Data(file)]);
    if Idle(s) {
      assert t.requests == [Send] && Carries([Send], true, [], false) && file[..0] == [];
      CarriesMore([Send], true, [], file);
      CarriesMore([Send] + [Data(file)], true, file, []);
      assert [] + file == file && file[..|file|] == file;
    } else {
      LostMore(s, Send);
      LostMore(t, Data(file));
      LostMore(u, Done);
    }
  }

  lemma GivesUp(s: Push)
    requires PushOk(s) && s.client.at.Reading?
    ensures Stuck(s)
  {
    if Lost(s) {
      LostMore(s, Send);
    } else {
      var data := s.client.file[..s.client.pos];
      if s.service.at.Waiting? {
        UnfinishedStalls(s.requests[1..], data);
      } else {
        UnfinishedStalls(s.requests, data[|s.service.written|..]);
      }
    }
  }

  lemma ClientOk(s: Push, step: ClientStep)
    requires PushOk(s) && ClientMay(s, step)
    ensures PushOk(ClientNext(s, step))
  {
    var c, v := s.client, s.service;
    match step
    case SmallFile(file) => BeginFile(s, file);
    case LargeFile(file) => BeginFile(s, file);
    case ReadChunk(count) =>
      if count > 0 {
        var chunk := c.file[c.pos..c.pos + count];
        if Lost(s) {
          LostMore(s, Data(chunk));
        } else {
          InStepMore(v.at, v.written, s.requests, c.file[..c.pos], chunk);
          assert c.file[..c.pos] + chunk == c.file[..c.pos + count];
        }
      }
    case ReadFails => GivesUp(s);
    case Finish =>
      if Lost(s) {
        LostMore(s, Done);
      } else {
        InStepMore(v.at, v.written, s.requests, c.file[..c.pos], []);
      }
    case CopyDone =>
      if Lost(s) {
        LostMore(s, Send);
      }
    case _ =>
  }

  lemma ServiceOk(s: Push, step: ServiceStep)
    requires PushOk(s) && ServiceMay(s, step)
    ensures PushOk(ServiceNext(s, step))
  {
  }

  predicate IsRun(run: seq<Push>, steps: seq<Step>) {
    && |run| == |steps| + 1 && run[0] == Begin
    && forall i :: 0 <= i < |steps| ==> Enabled(run[i], steps[i]) && run[i + 1] == Next(run[i], steps[i])
  }

  lemma {:induction false} RunOk(run: seq<Push>, steps: seq<Step>, n: nat)
    requires IsRun(run, steps) && n < |run|
    ensures PushOk(run[n])
  {
    if n > 0 {
      RunOk(run, steps, n - 1);
      match steps[n - 1]
      case ByClient(c) => ClientOk(run[n - 1], c);
      case ByService(v) => ServiceOk(run[n - 1], v);
    }
  }

  /** CopyDone is about to read OKAY. */
  predicate Succeeds(s: Push) {
    ClientMay(s, CopyDone) && s.replies != [] && s.replies[0].Okay?
  }

  /**
   * Whenever CopyDone reports success, also after earlier failures, the service
   * has written exactly what the client read from its file; that is the whole
   * file if and only if poll did not fail with part of it unread. The success is
   * not premature and nothing is left unread on either side.
   */
  lemma NoFalseSuccess(run: seq<Push>, steps: seq<Step>, n: nat)
    requires IsRun(run, steps) && n < |run| && Succeeds(run[n])
    ensures var s := run[n];
      && s.client.pos <= |s.client.file| && s.service.written == s.client.file[..s.client.pos]
      && (s.service.written == s.client.file <==> !s.client.cut)
      && s.client.expectDone && s.requests == [] && s.replies == [Okay]
  {
    RunOk(run, steps, n);
    var c := run[n].client;
    assert c.pos == |c.file| ==> c.file[..c.pos] == c.file;
  }

  /** A reply that comes before DONE was sent is a failure, after which the service stores nothing more. */
  lemma QuietUntilDone(run: seq<Push>, steps: seq<Step>, n: nat)
    requires IsRun(run, steps) && n < |run| && run[n].replies != []
    requires run[n].client.at.Reading? || run[n].client.at.Polling? || run[n].client.at.Finishing?
    ensures Failed(run[n])
  {
    RunOk(run, steps, n);
  }

  /**
   While the client awaits the reply, a service that has not failed has something to read:
   they never wait for each other.
   */
  lemma ReplyIsUnderWay(run: seq<Push>, steps: seq<Step>, n: nat) returns (v: ServiceStep)
    requires IsRun(run, steps) && n < |run| && run[n].client.at.Awaiting? && run[n].replies == []
    requires run[n].service.at.Waiting? || run[n].service.at.Receiving?
    ensures ServiceMay(run[n], v)
  {
    RunOk(run, steps, n);
    var r := run[n].requests[0];
    v := if run[n].service.at.Waiting? then Open(true, true, true)
         else match r
           case Data(_) => Receive(true, true)
           case Done => Complete(true, true)
           case Send => Refuse(true);
  }

  lemma OneMore(run: seq<Push>, steps: seq<Step>, step: Step)
    requires IsRun(run, steps) && Enabled(run[|steps|], step)
    ensures IsRun(run + [Next(run[|steps|], step)], steps + [step])
  {
    var r, m := run + [Next(run[|steps|], step)], steps + [step];
    forall i | 0 <= i < |steps|
      ensures Enabled(r[i], m[i]) && r[i + 1] == Next(r[i], m[i])
    {
      assert r[i] == run[i] && r[i + 1] == run[i + 1] && m[i] == steps[i];
    }
  }

  /** The run so far, extended by one step. */
  lemma Continue(run: seq<Push>, steps: seq<Step>, step: Step) returns (run': seq<Push>, steps': seq<Step>)
    requires IsRun(run, steps) && Enabled(run[|steps|], step)
    ensures IsRun(run', steps') && run'[|steps'|] == Next(run[|steps|], step)
  {
    OneMore(run, steps, step);
    run', steps' := run + [Next(run[|steps|], step)], steps + [step];
  }

  /** One chunk is sent, poll fails, and DONE follows. */
  lemma CutShort(file: bytes) returns (run: seq<Push>, steps: seq<Step>)
    requires |file| >= SYNC_DATA_MAX
    ensures IsRun(run, steps)
    ensures var n := SYNC_DATA_MAX - HEADER;
      run[|steps|] ==
        Push(Client(Awaiting, file, n, true, true), Service(Waiting, []), [Send, Data(file[..n]), Done], [])
  {
    var n := SYNC_DATA_MAX - HEADER;
    run, steps := [Begin], [];
    run, steps := Continue(run, steps, ByClient(LargeFile(file)));
    assert run[|steps|] == Push(Client(Reading, file, 0, false, false), Service(Waiting, []), [Send], []);
    run, steps := Continue(run, steps, ByClient(ReadChunk(n)));
    assert run[|steps|] ==
           Push(Client(Polling, file, n, false, false), Service(Waiting, []), [Send, Data(file[..n])], []);
    run, steps := Continue(run, steps, ByClient(Poll(true, false)));
    assert run[|steps|] ==
           Push(Client(Finishing, file, n, false, true), Service(Waiting, []), [Send, Data(file[..n])], []);
    run, steps := Continue(run, steps, ByClient(Finish));
  }

  /** The service stores what it was sent and says OKAY. */
  lemma Stored(run: seq<Push>, steps: seq<Step>, c: Client, data: bytes) returns (run': seq<Push>, steps': seq<Step>)
    requires IsRun(run, steps) && run[|steps|] == Push(c, Service(Waiting, []), [Send, Data(data), Done], [])
    ensures IsRun(run', steps') && run'[|steps'|] == Push(c, Service(Waiting, data), [], [Okay])
  {
    run', steps' := Continue(run, steps, ByService(Open(true, true, true)));
    assert run'[|steps'|] == Push(c, Service(Receiving, []), [Data(data), Done], []);
    run', steps' := Continue(run', steps', ByService(Receive(true, true)));
    assert run'[|steps'|] == Push(c, Service(Receiving, data), [Done], []);
    run', steps' := Continue(run', steps', ByService(Complete(true, true)));
  }

  /** Every file too large for one message can be cut short without notice if poll fails. */
  lemma PollFailureTruncates(file: bytes) returns (run: seq<Push>, steps: seq<Step>)
    requires |file| >= SYNC_DATA_MAX
    ensures IsRun(run, steps) && Succeeds(run[|steps|]) && run[|steps|].client.file == file
    ensures run[|steps|].service.written != file
  {
    var n := SYNC_DATA_MAX - HEADER;
    run, steps := CutShort(file);
    run, steps := Stored(run, steps, Client(Awaiting, file, n, true, true), file[..n]);
    assert |file[..n]| < |file|;
  }

  datatype Outcome = Copied | NotCopied | StillWaiting

  /** One end of the connection as the client program sees it; the service may act between any two of its actions. */
  class SyncConnection {
    var s: Push

    constructor ()
      ensures s == Begin && PushOk(s)
    {
      s := Begin;
    }

    /** Any number of service steps. */
    method Serve()
      requires PushOk(s)
      modifies this
      ensures PushOk(s) && s.client == old(s.client)
    {
      var n: nat := *;
      while n > 0
        invariant PushOk(s) && s.client == old(s.client)
      {
        var v: ServiceStep := *;
        if ServiceMay(s, v) {
          ServiceOk(s, v);
          s := ServiceNext(s, v);
        }
        n := n - 1;
      }
    }

    method Do(step: ClientStep)
      requires PushOk(s) && ClientMay(s, step)
      modifies this
      ensures PushOk(s) && s.client == ClientNext(old(s), step).client
    {
      ClientOk(s, step);
      s := ClientNext(s, step);
      Serve();
    }

    /** SendSmallFile */
    method SendSmallFile(file: bytes) returns (ok: bool)
      requires PushOk(s) && BetweenFiles(s.client.at) && |file| < SYNC_DATA_MAX
      modifies this
      ensures PushOk(s) && ok == s.client.at.Awaiting? && (ok ==> s.client.file == file && s.client.pos == |file|)
      ensures !ok ==> s.client.at.GaveUp? || s.client.at.Exited?
    {
      var tooLong: bool, fails: bool := *, *;
      Do(if tooLong then PathTooLong else if fails then Exit else SmallFile(file));
      ok := s.client.at.Awaiting?;
    }

    /** SendLargeFile; `ok` is false when the path was too long, or a read or a write failed. */
    method SendLargeFile(file: bytes) returns (ok: bool)
      requires PushOk(s) && BetweenFiles(s.client.at)
      modifies this
      ensures PushOk(s) && ok == s.client.at.Awaiting? && (ok ==> s.client.file == file)
      ensures !ok ==> s.client.at.GaveUp? || s.client.at.Exited?
    {
      var tooLong: bool := *;
      if tooLong {
        Do(PathTooLong);
        return false;
      }
      Do(LargeFile(file));
      while s.client.at.Reading?
        invariant PushOk(s) && s.client.file == file && s.client.pos <= |file|
        invariant s.client.at.Reading? || s.client.at.Finishing? || s.client.at.GaveUp? || s.client.at.Exited?
        decreases s.client.at.Reading?, |file| - s.client.pos
      {
        Chunk();
      }
      if s.client.at.Finishing? {
        var fails: bool := *;
        Do(if fails then Exit else Finish);
      }
      ok := s.client.at.Awaiting?;
    }

    /** One iteration of the loop of SendLargeFile. */
    method Chunk()
      requires PushOk(s) && s.client.at.Reading?
      modifies this
      ensures PushOk(s) && s.client.file == old(s.client.file) && old(s.client.pos) <= s.client.pos <= |s.client.file|
      ensures s.client.at.Reading? ==> s.client.pos > old(s.client.pos)
      ensures s.client.at.Reading? || s.client.at.Finishing? || s.client.at.GaveUp? || s.client.at.Exited?
    {
      var count: nat, fails: bool, dies: bool := *, *, *;
      if fails || !ClientMay(s, ReadChunk(count)) {
        Do(if dies then Exit else ReadFails);
        return;
      }
      Do(ReadChunk(count));
      if s.client.at.Polling? {
        var failed: bool, readable: bool := *, *;
        Do(Poll(failed, readable && (s.replies != [] || s.service.at.Closed?)));
      }
    }

    /**
     * sync_send for a regular file, the first on the connection or a later one,
     * whatever became of those before. It waits for the reply as long as need be.
     */
    method SendFile(file: bytes) returns (r: Outcome)
      requires PushOk(s) && BetweenFiles(s.client.at)
      modifies this
      ensures PushOk(s)
      ensures r.Copied? ==>
        && s.client.at.Ready? && s.client.file == file && s.client.pos <= |file|
        && s.service.written == file[..s.client.pos] && (s.service.written == file <==> !s.client.cut)
      ensures r.NotCopied? ==> s.client.at.GaveUp? || s.client.at.Exited?
      ensures r.StillWaiting? ==> s.client.at.Awaiting? && s.replies == [] && !s.service.at.Closed?
    {
      var ok;
      if |file| < SYNC_DATA_MAX {
        ok := SendSmallFile(file);
      } else {
        ok := SendLargeFile(file);
      }
      if !ok {
        return NotCopied;
      }
      var rounds: nat := *;
      while rounds > 0 && !ClientMay(s, CopyDone)
        invariant PushOk(s) && s.client.at.Awaiting? && s.client.file == file
      {
        Serve();
        rounds := rounds - 1;
      }
      if !ClientMay(s, CopyDone) {
        return StillWaiting;
      }
      r := if Succeeds(s) then Copied else NotCopied;
      assert |file| == s.client.pos ==> file[..s.client.pos] == file;
      ClientOk(s, CopyDone);
      s := ClientNext(s, CopyDone);
    }
  }
}
