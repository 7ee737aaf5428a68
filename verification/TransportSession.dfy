/**
 * The session of one transport on the host: the thread that reads from the
 * device, the thread that writes to it, and the main thread, joined by a socket
 * pair. One step of `Next` is one thread doing one thing another can see.
 */
module TransportSession {
  import opened Bytes

  datatype Packet = SYNC(arg0: nat, arg1: nat) | CNXN | AUTH(arg: nat) | STREAM(content: nat)
  datatype ConnectionState = Offline | Unauthorized | Up(banner: nat)

  const TOKEN := 1   // ADB_AUTH_TOKEN

  datatype MainAt = Registering | Idle | Connecting | Gone
  datatype ReaderAt = Starting | Greeting | Pumping | Parting | ReaderKicks | ReaderLeaves | ReaderDone
  datatype WriterAt = Writing(active: bool) | WriterKicks | WriterLeaves | WriterDone

  /** What the threads share under transport_lock, and how often the session was ended. */
  datatype Life = Life(
    refCount: nat, listed: bool, kicked: bool,
    kicks: nat, closes: nat,
    removals: nat,              // removal messages not yet handled
    removed: nat,               // and those handled
    aborted: bool)              // a CHECK has failed

  /** The main thread's view of the transport. */
  datatype View = View(
    state: ConnectionState, online: bool,
    streams: bool,              // has anything been sent for a stream on this transport?
    handled: nat)               // packets taken from `up`

  datatype Session = Session(
    main: MainAt, reader: ReaderAt, writer: WriterAt, life: Life, view: View,
    syncToken: nat,
    up: seq<Packet>,            // from the reader to the main thread
    down: seq<Packet>,          // from the main thread to the writer
    wire: seq<Packet>,          // what the device has been sent
    sent: seq<Packet>,          // everything the main thread has put on `down`
    early: nat,                 // how many of those before it took its first packet
    parted: bool)               // has the reader posted SYNC(0, 0)?

  const Begin := Session(Registering, Starting, Writing(false), Life(2, false, false, 0, 0, 0, 0, false),
                         View(Offline, false, false, 0), 0, [], [], [], [], 0, false)

  datatype MainStep =
    | Register
    | HandlePacket(replies: seq<Packet>, banner: nat, auth: nat)
    | Connect
    | Send(content: nat)
    | Remove

  datatype ReaderStep =
    | Count
    | Greet(greeted: bool)
    | Forward(packet: Packet, forwarded: bool)
    | ReadFails
    | Part(posted: bool)
    | ReaderKick
    | ReaderUnref

  datatype WriterStep = Take(written: bool) | TakeFails | WriterKick | WriterUnref

  datatype Step = Main(m: MainStep) | Reader(r: ReaderStep) | Writer(w: WriterStep)

  /** Does handling the next packet run stream code: its own, or handle_offline closing sockets? */
  predicate MayReply(s: Session)
    requires s.up != []
  {
    match s.up[0]
    case SYNC(arg0, _) => arg0 == 0 && s.view.streams
    case CNXN => s.view.state != Offline && s.view.streams
    case AUTH(arg) => arg != TOKEN && s.view.streams
    case STREAM(_) => s.view.online
  }

  predicate MainMay(s: Session, step: MainStep) {
    match step
    case Register => s.main.Registering?
    case HandlePacket(replies, _, _) =>
      && s.main.Idle? && s.up != []
      && (forall i :: 0 <= i < |replies| ==> replies[i].STREAM?)
      && (replies != [] ==> MayReply(s))
    case Connect => s.main.Connecting?
    case Send(_) => s.main.Idle?
    case Remove => s.main.Idle? && s.life.removals > 0
  }

  predicate ReaderMay(s: Session, step: ReaderStep) {
    match step
    case Count => s.reader.Starting?
    case Greet(_) => s.reader.Greeting?
    case Forward(_, _) => s.reader.Pumping?
    case ReadFails => s.reader.Pumping?
    case Part(_) => s.reader.Parting?
    case ReaderKick => s.reader.ReaderKicks?
    case ReaderUnref => s.reader.ReaderLeaves?
  }

  predicate WriterMay(s: Session, step: WriterStep) {
    match step
    case Take(_) => s.writer.Writing? && s.down != []
    case TakeFails => s.writer.Writing?
    case WriterKick => s.writer.WriterKicks?
    case WriterUnref => s.writer.WriterLeaves?
  }

  predicate Enabled(s: Session, step: Step) {
    match step
    case Main(m) => MainMay(s, m)
    case Reader(r) => ReaderMay(s, r)
    case Writer(w) => WriterMay(s, w)
  }

  /** send_packet: the main thread puts packets on the socket pair. */
  function Sends(s: Session, ps: seq<Packet>): Session {
    s.(down := s.down + ps, sent := s.sent + ps)
  }

  /** What handle_packet sends, on the host; send_auth_response sends AUTH(auth), or nothing if auth is 0. */
  function Answer(p: Packet, replies: seq<Packet>, auth: nat): seq<Packet> {
    match p
    case SYNC(_, _) => replies + [p]
    case CNXN => replies
    case AUTH(arg) => if arg == TOKEN && auth != 0 then replies + [AUTH(auth)] else replies
    case STREAM(_) => replies
  }

  function ViewAfter(v: View, p: Packet, banner: nat): View {
    match p
    case SYNC(arg0, _) => if arg0 != 0 then v else v.(state := Offline, online := false)
    case CNXN => v.(state := Up(banner), online := true)
    case AUTH(arg) =>
      if arg == TOKEN then v.(state := if v.state == Offline then Unauthorized else v.state)
      else v.(state := Offline, online := false)
    case STREAM(_) => v
  }

  function MainNext(s: Session, step: MainStep): Session
    requires MainMay(s, step)
  {
    match step
    case Register => s.(main := Idle, life := s.life.(listed := true))
    case HandlePacket(replies, banner, auth) =>
      var p := s.up[0];
      var v := ViewAfter(s.view, p, banner);
      Sends(s, Answer(p, replies, auth)).(
        main := if p.SYNC? && p.arg0 != 0 then Connecting else Idle,
        view := v.(handled := v.handled + 1, streams := v.streams || replies != []),
        up := s.up[1..])
    case Connect => Sends(s, [CNXN]).(main := Idle)
    case Send(content) =>
      Sends(s, [STREAM(content)]).(view := s.view.(streams := true),
                                   early := if s.view.handled == 0 then s.early + 1 else s.early)
    case Remove =>
      s.(main := Gone, life := s.life.(removals := s.life.removals - 1, removed := s.life.removed + 1, listed := false))
  }

  /** kick_transport and atransport::Kick */
  function Kick(l: Life): Life {
    if l.listed && !l.kicked then l.(kicked := true, kicks := l.kicks + 1) else l
  }

  /** transport_unref */
  function Unref(l: Life): Life {
    if l.refCount == 0 then l.(aborted := true)
    else if l.refCount == 1 then l.(refCount := 0, closes := l.closes + 1, removals := l.removals + 1)
    else l.(refCount := l.refCount - 1)
  }

  function ReaderNext(s: Session, step: ReaderStep): Session
    requires ReaderMay(s, step)
  {
    match step
    case Count => s.(reader := Greeting, syncToken := s.syncToken + 1)
    case Greet(ok) =>
      if ok then s.(reader := Pumping, up := s.up + [SYNC(1, s.syncToken)]) else s.(reader := ReaderKicks)
    case Forward(p, ok) => if ok then s.(up := s.up + [p]) else s.(reader := ReaderKicks)
    case ReadFails => s.(reader := Parting)
    case Part(ok) =>
      if ok then s.(reader := ReaderKicks, up := s.up + [SYNC(0, 0)], parted := true) else s.(reader := ReaderKicks)
    case ReaderKick => s.(reader := ReaderLeaves, life := Kick(s.life))
    case ReaderUnref => s.(reader := ReaderDone, life := Unref(s.life))
  }

  function WriterNext(s: Session, step: WriterStep): Session
    requires WriterMay(s, step)
  {
    match step
    case Take(ok) =>
      var p := s.down[0];
      var t := s.(down := s.down[1..]);
      if p.SYNC? then
        if p.arg0 == 0 then t.(writer := WriterKicks)
        else if p.arg1 == s.syncToken then t.(writer := Writing(true))
        else t
      else if s.writer.active then
        if ok then t.(wire := t.wire + [p]) else t.(writer := WriterKicks)
      else t
    case TakeFails => s.(writer := WriterKicks)
    case WriterKick => s.(writer := WriterLeaves, life := Kick(s.life))
    case WriterUnref => s.(writer := WriterDone, life := Unref(s.life))
  }

  function Next(s: Session, step: Step): Session
    requires Enabled(s, step)
  {
    match step
    case Main(m) => MainNext(s, m)
    case Reader(r) => ReaderNext(s, r)
    case Writer(w) => WriterNext(s, w)
  }

  // References, the one close, the one removal.

  function Running(s: Session): nat {
    (if s.reader.ReaderDone? then 0 else 1) + (if s.writer.WriterDone? then 0 else 1)
  }

  predicate RefsOk(s: Session) {
    var l := s.life;
    && !l.aborted && l.refCount == Running(s)
    && l.closes == (if l.refCount == 0 then 1 else 0)
    && l.removals + l.removed == l.closes
    && (s.main.Gone? <==> l.removed > 0)
    && l.kicks == (if l.kicked then 1 else 0)
  }

  lemma RefsStep(s: Session, step: Step)
    requires RefsOk(s) && Enabled(s, step)
    ensures RefsOk(Next(s, step))
  {
    match step
    case Main(_) =>
    case Reader(r) => RefsReader(s, r);
    case Writer(w) => RefsWriter(s, w);
  }

  lemma RefsReader(s: Session, step: ReaderStep)
    requires RefsOk(s) && ReaderMay(s, step)
    ensures RefsOk(ReaderNext(s, step))
  {}

  lemma RefsWriter(s: Session, step: WriterStep)
    requires RefsOk(s) && WriterMay(s, step)
    ensures RefsOk(WriterNext(s, step))
  {}

  // What is put on the wire.

  /** What is left once the SYNC packets are taken out. */
  function Payload(ps: seq<Packet>): seq<Packet> {
    if ps == [] then [] else (if ps[0].SYNC? then [] else [ps[0]]) + Payload(ps[1..])
  }

  lemma {:induction false} PayloadAppend(a: seq<Packet>, b: seq<Packet>)
    ensures Payload(a + b) == Payload(a) + Payload(b)
  {
    if a == [] {
      assert a + b == b;
    } else {
      var first := if a[0].SYNC? then [] else [a[0]];
      PayloadAppend(a[1..], b);
      assert (a + b)[1..] == a[1..] + b && (a + b)[0] == a[0];
      Regroup(first, Payload(a[1..]), Payload(b));
    }
  }

  /** How a session starts: SYNC(1, 1) up; then the same down, with CNXN right behind it. */
  predicate OpeningOk(s: Session) {
    && s.syncToken == (if s.reader.Starting? then 0 else 1)
    && (s.reader.Starting? || s.reader.Greeting? ==> s.up == [] && s.view.handled == 0)
    && (s.view.handled == 0 ==>
          && s.early == |s.sent| && !s.main.Connecting?
          && (if s.up == [] then !s.reader.Pumping? && !s.reader.Parting? else s.up[0] == SYNC(1, 1)))
    && (s.view.handled > 0 ==>
          && s.early < |s.sent| && s.sent[s.early] == SYNC(1, 1)
          && (if s.early + 1 < |s.sent| then s.sent[s.early + 1] == CNXN else s.main.Connecting?))
    && (forall i :: 0 <= i < s.early ==> s.sent[i].STREAM?)
  }

  lemma OpeningStep(s: Session, step: Step)
    requires OpeningOk(s) && Enabled(s, step)
    ensures OpeningOk(Next(s, step))
  {
    match step
    case Main(m) => OpeningMain(s, m);
    case Reader(r) => OpeningReader(s, r);
    case Writer(_) =>
  }

  lemma OpeningMain(s: Session, step: MainStep)
    requires OpeningOk(s) && MainMay(s, step)
    ensures OpeningOk(MainNext(s, step))
  {}

  lemma OpeningReader(s: Session, step: ReaderStep)
    requires OpeningOk(s) && ReaderMay(s, step)
    ensures OpeningOk(ReaderNext(s, step))
  {}

  /**
   * The writer passes on everything from the first SYNC on, save the SYNC packets,
   * until it leaves its loop; `early` packets were sent before that SYNC.
   */
  predicate Relays(sent: seq<Packet>, early: nat, down: seq<Packet>, wire: seq<Packet>, writer: WriterAt) {
    && early <= |sent| && |down| <= |sent| && down == sent[|sent| - |down|..]
    && (if !writer.Writing? then wire <= Payload(sent[early..])
        else if writer.active then |down| < |sent| - early && wire + Payload(down) == Payload(sent[early..])
        else |down| >= |sent| - early && wire == [])
  }

  lemma RelaysSend(sent: seq<Packet>, early: nat, down: seq<Packet>, wire: seq<Packet>, writer: WriterAt,
                   ps: seq<Packet>)
    requires Relays(sent, early, down, wire, writer)
    ensures Relays(sent + ps, early, down + ps, wire, writer)
  {
    assert (sent + ps)[|sent + ps| - |down + ps|..] == down + ps;
    assert (sent + ps)[early..] == sent[early..] + ps;
    PayloadAppend(sent[early..], ps);
    if writer.Writing? && writer.active {
      PayloadAppend(down, ps);
      assert wire + (Payload(down) + Payload(ps)) == wire + Payload(down) + Payload(ps);
    }
  }

  lemma RelaysEarly(sent: seq<Packet>, down: seq<Packet>, wire: seq<Packet>, writer: WriterAt, p: Packet)
    requires Relays(sent, |sent|, down, wire, writer)
    ensures Relays(sent + [p], |sent| + 1, down + [p], wire, writer)
  {
    assert (sent + [p])[|sent| + 1..] == [] && sent[|sent|..] == [];
    assert (sent + [p])[|sent| - |down|..] == down + [p];
  }

  /** One packet through the writer's loop. */
  lemma RelaysTake(sent: seq<Packet>, early: nat, down: seq<Packet>, wire: seq<Packet>, active: bool)
    requires Relays(sent, early, down, wire, Writing(active)) && down != []
    ensures Relays(sent, early, down[1..], wire, WriterKicks)
    ensures active && down[0].SYNC? ==> Relays(sent, early, down[1..], wire, Writing(true))
    ensures active && !down[0].SYNC? ==> Relays(sent, early, down[1..], wire + [down[0]], Writing(true))
    ensures !active && |down| > |sent| - early ==> Relays(sent, early, down[1..], wire, Writing(false))
    ensures !active && |down| == |sent| - early && down[0].SYNC? ==> Relays(sent, early, down[1..], wire, Writing(true))
  {
    assert down[1..] == sent[|sent| - |down[1..]|..];
    if active && !down[0].SYNC? {
      assert wire + ([down[0]] + Payload(down[1..])) == wire + [down[0]] + Payload(down[1..]);
    }
  }

  predicate WireOk(s: Session) {
    Relays(s.sent, s.early, s.down, s.wire, s.writer)
  }

  lemma WireMain(s: Session, step: MainStep)
    requires OpeningOk(s) && WireOk(s) && MainMay(s, step)
    ensures WireOk(MainNext(s, step))
  {
    match step
    case HandlePacket(replies, _, auth) =>
      RelaysSend(s.sent, s.early, s.down, s.wire, s.writer, Answer(s.up[0], replies, auth));
    case Connect => RelaysSend(s.sent, s.early, s.down, s.wire, s.writer, [CNXN]);
    case Send(content) =>
      if s.view.handled == 0 {
        RelaysEarly(s.sent, s.down, s.wire, s.writer, STREAM(content));
      } else {
        RelaysSend(s.sent, s.early, s.down, s.wire, s.writer, [STREAM(content)]);
      }
    case _ =>
  }

  lemma WireWriter(s: Session, step: WriterStep)
    requires OpeningOk(s) && WireOk(s) && WriterMay(s, step)
    ensures WireOk(WriterNext(s, step))
  {
    if step.Take? {
      RelaysTake(s.sent, s.early, s.down, s.wire, s.writer.active);
      assert s.down[0] == s.sent[|s.sent| - |s.down|];
    } else if step.TakeFails? {
      assert Relays(s.sent, s.early, s.down, s.wire, WriterKicks);
    }
  }

  // How a session ends.

  predicate IsStop(p: Packet) {
    p.SYNC? && p.arg0 == 0
  }

  /** Once the reader has posted SYNC(0, 0), it is on its way to the writer or the writer has left. */
  predicate EndingOk(s: Session) {
    && (s.parted ==> s.reader.ReaderKicks? || s.reader.ReaderLeaves? || s.reader.ReaderDone?)
    && (s.parted && s.writer.Writing? ==>
          (s.up != [] && IsStop(s.up[|s.up| - 1])) || exists i :: 0 <= i < |s.down| && IsStop(s.down[i]))
  }

  lemma EndingMain(s: Session, step: MainStep)
    requires EndingOk(s) && MainMay(s, step)
    ensures EndingOk(MainNext(s, step))
  {
    var t := MainNext(s, step);
    assert forall i :: 0 <= i < |s.down| ==> t.down[i] == s.down[i];
    if step.HandlePacket? && IsStop(s.up[0]) {
      assert IsStop(t.down[|t.down| - 1]);
    }
  }

  lemma EndingWriter(s: Session, step: WriterStep)
    requires EndingOk(s) && WriterMay(s, step)
    ensures EndingOk(WriterNext(s, step))
  {
    var t := WriterNext(s, step);
    if step.Take? && t.writer.Writing? {
      assert !IsStop(s.down[0]);
      assert forall i :: 0 < i < |s.down| ==> s.down[i] == t.down[i - 1];
    }
  }

  // Runs.

  predicate SessionOk(s: Session) {
    RefsOk(s) && OpeningOk(s) && WireOk(s) && EndingOk(s)
  }

  lemma ReaderKeeps(s: Session, step: ReaderStep)
    requires WireOk(s) && EndingOk(s) && ReaderMay(s, step)
    ensures WireOk(ReaderNext(s, step)) && EndingOk(ReaderNext(s, step))
  {
    assert ReaderNext(s, step).down == s.down;
  }

  lemma StepOk(s: Session, step: Step)
    requires SessionOk(s) && Enabled(s, step)
    ensures SessionOk(Next(s, step))
  {
    RefsStep(s, step);
    OpeningStep(s, step);
    match step
    case Main(m) =>
      WireMain(s, m);
      EndingMain(s, m);
    case Reader(r) => ReaderKeeps(s, r);
    case Writer(w) =>
      WireWriter(s, w);
      EndingWriter(s, w);
  }

  predicate IsRun(run: seq<Session>, steps: seq<Step>) {
    && |run| == |steps| + 1 && run[0] == Begin
    && forall i :: 0 <= i < |steps| ==> Enabled(run[i], steps[i]) && run[i + 1] == Next(run[i], steps[i])
  }

  lemma {:induction false} RunOk(run: seq<Session>, steps: seq<Step>, n: nat)
    requires IsRun(run, steps) && n < |run|
    ensures SessionOk(run[n])
  {
    if n == 0 {
      BeginOk();
    } else {
      RunOk(run, steps, n - 1);
      StepOk(run[n - 1], steps[n - 1]);
    }
  }

  lemma BeginOk()
    ensures SessionOk(Begin)
  {
    assert Payload([]) == [];
  }

  /** The reference count never underflows; one close and one removal, after both threads are done. */
  lemma ClosedOnce(run: seq<Session>, steps: seq<Step>, n: nat)
    requires IsRun(run, steps) && n < |run|
    ensures var s := run[n];
      && !s.life.aborted && s.life.refCount == Running(s) <= 2 && s.life.kicks <= 1
      && s.life.removals + s.life.removed == s.life.closes
      && (s.life.closes == 1 <==> s.reader.ReaderDone? && s.writer.WriterDone?)
      && (s.life.closes == 0 <==> s.life.refCount > 0)
      && (s.main.Gone? ==> s.life.closes == 1 && s.life.removed == 1 && s.life.removals == 0)
  {
    RunOk(run, steps, n);
  }

  /** The first packet on the wire is CNXN, and no SYNC packet gets there. */
  lemma ConnectFirst(run: seq<Session>, steps: seq<Step>, n: nat)
    requires IsRun(run, steps) && n < |run|
    ensures var s := run[n];
      && s.early <= |s.sent| && s.wire <= Payload(s.sent[s.early..])
      && (s.wire != [] ==> s.wire[0] == CNXN)
  {
    RunOk(run, steps, n);
    var s := run[n];
    var proper := s.sent[s.early..];
    if s.wire != [] && s.early + 1 < |s.sent| {
      assert proper[0] == SYNC(1, 1) && proper[1] == CNXN;
      assert Payload(proper) == Payload(proper[1..]) && proper[1..][0] == CNXN;
    }
  }

  /**
   * While the writer runs and has caught up, the device has been sent every
   * packet the main thread sent, exactly when none was sent before the first
   * packet came in.
   */
  lemma NothingLost(run: seq<Session>, steps: seq<Step>, n: nat)
    requires IsRun(run, steps) && n < |run|
    requires run[n].writer.Writing? && run[n].down == []
    ensures run[n].wire == Payload(run[n].sent) <==> run[n].early == 0
  {
    RunOk(run, steps, n);
    var s := run[n];
    var early := s.sent[..s.early];
    PayloadAppend(early, s.sent[s.early..]);
    assert s.sent == early + s.sent[s.early..];
    if s.early > 0 {
      assert Payload(early) == [early[0]] + Payload(early[1..]);
    }
  }

  /** Streams opened only on transports that are not offline never send early. */
  lemma {:induction false} OnlyWhenUp(run: seq<Session>, steps: seq<Step>, n: nat)
    requires IsRun(run, steps) && n < |run|
    requires forall i :: 0 <= i < n && steps[i].Main? && steps[i].m.Send? ==>
               run[i].view.state != Offline || run[i].view.streams
    ensures run[n].early == 0
    ensures run[n].view.handled == 0 ==> run[n].view.state == Offline && !run[n].view.streams
  {
    if n > 0 {
      OnlyWhenUp(run, steps, n - 1);
    }
  }

  /** Once the reader has said goodbye and both queues are empty, the writer is out of its loop. */
  lemma GoodbyeReachesWriter(run: seq<Session>, steps: seq<Step>, n: nat)
    requires IsRun(run, steps) && n < |run|
    requires run[n].parted && run[n].up == [] && run[n].down == []
    ensures !run[n].writer.Writing?
  {
    RunOk(run, steps, n);
  }

  /** From s the steps lead to t. */
  predicate LeadsTo(s: Session, steps: seq<Step>, t: Session)
    decreases |steps|
  {
    if steps == [] then s == t else Enabled(s, steps[0]) && LeadsTo(Next(s, steps[0]), steps[1..], t)
  }

  /** The main thread or the writer does what it does by itself, and no write fails. */
  predicate Passing(step: Step) {
    match step
    case Main(m) => m.Register? || m.HandlePacket? || m.Connect?
    case Reader(_) => false
    case Writer(w) => w == Take(true)
  }

  /** What moves the goodbye on its way to the writer. */
  function NextPassing(s: Session): Step {
    match s.main
    case Registering => Main(Register)
    case Connecting => Main(Connect)
    case _ => if s.up != [] then Main(HandlePacket([], 0, 0)) else Writer(Take(true))
  }

  function Distance(s: Session): nat {
    match s.main
    case Registering => 2
    case Connecting => 1
    case _ => 0
  }

  lemma PassingEnabled(s: Session)
    requires RefsOk(s) && EndingOk(s) && s.parted && s.writer.Writing?
    ensures Enabled(s, NextPassing(s)) && Passing(NextPassing(s)) && !s.main.Gone?
  {}

  lemma PassingNearer(s: Session)
    requires s.writer.Writing? && !s.main.Gone? && Enabled(s, NextPassing(s))
    ensures var t := Next(s, NextPassing(s));
      && t.parted == s.parted
      && (|| |t.up| < |s.up|
          || (|t.up| == |s.up| && Distance(t) < Distance(s))
          || (|t.up| == |s.up| && Distance(t) == Distance(s) && |t.down| < |s.down|))
  {}

  /**
   * Once the reader has posted SYNC(0, 0) there is always a way on by which it
   * reaches the writer: the two other threads never wait for each other.
   */
  lemma {:induction false} GoodbyeArrives(s: Session) returns (steps: seq<Step>, t: Session)
    requires SessionOk(s) && s.parted
    ensures LeadsTo(s, steps, t) && !t.writer.Writing?
    ensures forall i :: 0 <= i < |steps| ==> Passing(steps[i])
    decreases |s.up|, Distance(s), |s.down|
  {
    if s.writer.Writing? {
      PassingEnabled(s);
      PassingNearer(s);
      StepOk(s, NextPassing(s));
      var rest;
      rest, t := GoodbyeArrives(Next(s, NextPassing(s)));
      steps := [NextPassing(s)] + rest;
      assert steps[1..] == rest;
    } else {
      steps, t := [], s;
    }
  }

  /** So it is after every run. */
  lemma GoodbyeCanArrive(run: seq<Session>, steps: seq<Step>, n: nat) returns (more: seq<Step>, t: Session)
    requires IsRun(run, steps) && n < |run| && run[n].parted
    ensures LeadsTo(run[n], more, t) && !t.writer.Writing?
    ensures forall i :: 0 <= i < |more| ==> Passing(more[i])
  {
    RunOk(run, steps, n);
    more, t := GoodbyeArrives(run[n]);
  }
}
